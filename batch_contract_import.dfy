/** Turning extracted contracts into leads (`src/lib/batch-contract-import.ts`).

    `ContractToLead` maps a contract to the fields of a new lead. The batch
    import walks the contracts in order: for each one it reports progress,
    geocodes the mapped address, creates the lead, marks it contacted and
    stores the contract linked to it. A failure anywhere in one record is
    caught, counted and logged, and the next record is processed.

    The geocoding endpoint and the three database writes are oracles: each
    record comes with a `Replies` value saying what each of them answers.
    The calls the import makes, including the progress reports, are returned
    as a trace of events. */
module BatchImport {
  import opened Common
  import opened Leads
  import opened ContractParser

  // ---------------------------------------------------------------------------
  // Mapping a contract to a lead

  /** The lead fields derived from a contract (all of `Lead` but `id` and
      `location`; the fields not listed here are absent). */
  datatype LeadData = LeadData(
    name: string,
    address: string,
    leadType: LeadType,
    phone: Option<string>,
    email: Option<string>,
    contactPerson: Option<string>,
    notes: Option<string>,
    contactedDate: Option<string>)

  const UnknownCustomer := "Unknown Customer"

  /** `customerName || siteName || 'Unknown Customer'`. */
  function LeadName(c: ContractData): (r: string)
    ensures r != ""
    ensures Truthy(c.customerName) ==> r == c.customerName.value
    ensures !Truthy(c.customerName) && Truthy(c.siteName) ==> r == c.siteName.value
    ensures !Truthy(c.customerName) && !Truthy(c.siteName) ==> r == UnknownCustomer
  {
    if Truthy(c.customerName) then c.customerName.value
    else if Truthy(c.siteName) then c.siteName.value
    else UnknownCustomer
  }

  /** One address group: line 1, followed by `", " + line2` when line 2 is set. */
  function JoinLines(line1: string, line2: Option<string>): (r: string)
    ensures Truthy(line2) ==> r == line1 + ", " + line2.value
    ensures !Truthy(line2) ==> r == line1
  {
    if Truthy(line2) then line1 + ", " + line2.value else line1
  }

  /** The address of the first group (customer, billing, site) whose line 1
      is set; empty when no line 1 is set, whatever the line-2 fields hold. */
  function LeadAddress(c: ContractData): (r: string)
    ensures Truthy(c.customerAddress1) ==> r == JoinLines(c.customerAddress1.value, c.customerAddress2)
    ensures !Truthy(c.customerAddress1) && Truthy(c.billingAddress1) ==>
              r == JoinLines(c.billingAddress1.value, c.billingAddress2)
    ensures !Truthy(c.customerAddress1) && !Truthy(c.billingAddress1) && Truthy(c.siteAddress1) ==>
              r == JoinLines(c.siteAddress1.value, c.siteAddress2)
    ensures r == "" <==> !Truthy(c.customerAddress1) && !Truthy(c.billingAddress1) && !Truthy(c.siteAddress1)
  {
    if Truthy(c.customerAddress1) then JoinLines(c.customerAddress1.value, c.customerAddress2)
    else if Truthy(c.billingAddress1) then JoinLines(c.billingAddress1.value, c.billingAddress2)
    else if Truthy(c.siteAddress1) then JoinLines(c.siteAddress1.value, c.siteAddress2)
    else ""
  }

  /** The service type mentions `word`, ignoring the case of ASCII letters. */
  predicate Mentions(serviceType: Option<string>, word: string) {
    Truthy(serviceType) && Contains(ToLower(serviceType.value), word)
  }

  /** Contracts are for trash service, so the category defaults to pool. */
  function LeadCategory(c: ContractData): (r: LeadType)
    ensures r != Other
    ensures r == Hoa <==> Mentions(c.serviceType, "hoa")
    ensures r == Neighborhood <==> !Mentions(c.serviceType, "hoa") && Mentions(c.serviceType, "neighborhood")
    ensures r == Pool <==> !Mentions(c.serviceType, "hoa") && !Mentions(c.serviceType, "neighborhood")
  {
    if Mentions(c.serviceType, "hoa") then Hoa
    else if Mentions(c.serviceType, "neighborhood") then Neighborhood
    else Pool
  }

  /** `contactMobile || contactPhone || undefined`. */
  function LeadPhone(c: ContractData): (r: Option<string>)
    ensures Truthy(c.contactMobile) ==> r == c.contactMobile
    ensures !Truthy(c.contactMobile) && Truthy(c.contactPhone) ==> r == c.contactPhone
    ensures r == None <==> !Truthy(c.contactMobile) && !Truthy(c.contactPhone)
  {
    Defined(OrElse(c.contactMobile, c.contactPhone))
  }

  /** `contractToLead`. `toIso` is what JavaScript's `Date` makes of a date
      string: its ISO form, or `None` when the string is not a date. */
  function ContractToLead(c: ContractData, toIso: string -> Option<string>): (r: LeadData)
    ensures r.name == LeadName(c) && r.address == LeadAddress(c)
    ensures r.leadType == LeadCategory(c) && r.phone == LeadPhone(c)
    ensures r.email == Defined(c.contactEmail) && r.contactPerson == Defined(c.siteContact)
    ensures Truthy(c.serviceType) ==> r.notes == Some("Service: " + c.serviceType.value)
    ensures !Truthy(c.serviceType) ==> r.notes == None
    ensures Truthy(c.effectiveDate) ==> r.contactedDate == toIso(c.effectiveDate.value)
    ensures !Truthy(c.effectiveDate) ==> r.contactedDate == None
  {
    LeadData(
      LeadName(c),
      LeadAddress(c),
      LeadCategory(c),
      LeadPhone(c),
      Defined(c.contactEmail),
      Defined(c.siteContact),
      if Truthy(c.serviceType) then Some("Service: " + c.serviceType.value) else None,
      if Truthy(c.effectiveDate) then toIso(c.effectiveDate.value) else None)
  }

  /** The name error of validation and the fallback name cover the same
      case: a contract without a customer name is still named. */
  lemma NameFallback(c: ContractData, toIso: string -> Option<string>)
    requires !Truthy(c.customerName)
    ensures NameRequired in ValidateContractData(c).errors
    ensures ContractToLead(c, toIso).name == (if Truthy(c.siteName) then c.siteName.value else UnknownCustomer)
  {
  }

  /** Validation accepts any address line, line 2 included, while the mapper
      only starts an address from a line 1: a contract whose only address is
      a line 2 passes validation and maps to an empty address. */
  lemma ValidButUnaddressable(c: ContractData, toIso: string -> Option<string>)
    requires Truthy(c.customerName) && Truthy(c.siteAddress2)
    requires !Truthy(c.customerAddress1) && !Truthy(c.billingAddress1) && !Truthy(c.siteAddress1)
    ensures ValidateContractData(c).valid
    ensures ContractToLead(c, toIso).address == ""
  {
  }

  // ---------------------------------------------------------------------------
  // The oracles

  /** The message logged for a value that is not an `Error`. */
  const UnknownError := "Unknown error"

  /** The answer of the geocoding endpoint to one request. */
  datatype GeoReply =
    | Located(location: Location)
    | HttpError(status: nat, statusText: string)
    | NoMatch
    | RequestThrew(thrown: Thrown)

  /** What the oracles answer while one record is imported: the progress
      callback called before it, the geocoder, the three writes (`None` for a
      call that returns normally), and the date strings the clock gives. */
  datatype Replies = Replies(
    onProgress: Option<Thrown>,
    geocode: GeoReply,
    createLead: Result<string, Thrown>,
    markContacted: Option<Thrown>,
    createContract: Option<Thrown>,
    localDate: string,
    isoNow: string)

  /** The stored contract, linked to the lead created for it. */
  datatype ContractRecord = ContractRecord(
    customerName: string,
    customerAddress1: string,
    customerAddress2: Option<string>,
    billingAddress1: Option<string>,
    billingAddress2: Option<string>,
    contactEmail: Option<string>,
    contactMobile: Option<string>,
    contactPhone: Option<string>,
    siteName: Option<string>,
    siteAddress1: Option<string>,
    siteAddress2: Option<string>,
    siteContact: Option<string>,
    effectiveDate: Option<string>,
    serviceType: Option<string>,
    location: Location,
    linkedLeadId: string,
    importedDate: string)

  datatype Status = Processing | Completed | Errored

  datatype ImportProgress = ImportProgress(processed: nat, total: nat, currentFile: string, status: Status)

  /** The observable effects of the import, in order. */
  datatype Event =
    | Progress(progress: ImportProgress)
    | GeocodeRequest(address: string)
    | CreateLead(data: LeadData, location: Location, isManual: bool)
    | MarkContacted(lead: Lead, note: string)
    | CreateContract(record: ContractRecord)

  datatype ImportError = ImportError(file: string, error: string)

  datatype ImportResult = ImportResult(
    success: bool,
    importedCount: nat,
    failedCount: nat,
    errors: seq<ImportError>)

  // ---------------------------------------------------------------------------
  // One record

  const EmptyAddress := "Address is empty or invalid"

  /** `geocodeAddress`: an empty address is refused before any request. */
  function Geocode(address: string, reply: GeoReply): (r: Result<Location, Thrown>)
    ensures address == "" ==> r == Failure(ErrorObject(EmptyAddress))
    ensures address != "" && reply.Located? ==> r == Success(reply.location)
    ensures address != "" && reply.HttpError? ==>
              r == Failure(ErrorObject("Geocoding failed: " + NatToString(reply.status) + " " + reply.statusText))
    ensures address != "" && reply.NoMatch? ==> r == Failure(ErrorObject("No location found for address: " + address))
    ensures address != "" && reply.RequestThrew? ==> r == Failure(reply.thrown)
  {
    if address == "" then Failure(ErrorObject(EmptyAddress))
    else
      match reply
      case Located(loc) => Success(loc)
      case HttpError(status, text) => Failure(ErrorObject("Geocoding failed: " + NatToString(status) + " " + text))
      case NoMatch => Failure(ErrorObject("No location found for address: " + address))
      case RequestThrew(t) => Failure(t)
  }

  /** The lead handed to `markAsContacted`: the mapped fields, the new id and
      the location, marked as manually created. */
  function FullLead(id: string, d: LeadData, loc: Location): (r: Lead)
    ensures r.id == id && r.name == d.name && r.address == d.address && r.location == loc
    ensures r.leadType == d.leadType && r.phone == d.phone && r.email == d.email
    ensures r.contactPerson == d.contactPerson && r.notes == d.notes && r.contactedDate == d.contactedDate
    ensures r.isManual == Some(true) && r.contacted == None
    ensures r.website == None && r.rating == None && r.reviewCount == None && r.businessStatus == None
    ensures r.distance == None && r.photos == None && r.contactNotes == None
    ensures r.notInterested == None && r.notInterestedDate == None && r.rejectionReason == None
  {
    Lead(id, d.name, d.address, loc, d.leadType, d.phone, None, None, None, None, None,
         d.notes, None, d.contactPerson, d.email, None, d.contactedDate, None, None, None, None,
         Some(true))
  }

  /** The contract as stored: name and first address line default to `''`,
      the rest are copied as they are. */
  function RecordOf(c: ContractData, loc: Location, leadId: string, isoNow: string): (r: ContractRecord)
    ensures r.linkedLeadId == leadId && r.location == loc && r.importedDate == isoNow
    ensures r.customerName == Text(c.customerName) && r.customerAddress1 == Text(c.customerAddress1)
    ensures r.serviceType == c.serviceType && r.effectiveDate == c.effectiveDate
    ensures r.customerAddress2 == c.customerAddress2
    ensures r.billingAddress1 == c.billingAddress1 && r.billingAddress2 == c.billingAddress2
    ensures r.contactEmail == c.contactEmail && r.contactMobile == c.contactMobile && r.contactPhone == c.contactPhone
    ensures r.siteName == c.siteName && r.siteAddress1 == c.siteAddress1 && r.siteAddress2 == c.siteAddress2
    ensures r.siteContact == c.siteContact
  {
    ContractRecord(
      Text(c.customerName), Text(c.customerAddress1), c.customerAddress2,
      c.billingAddress1, c.billingAddress2, c.contactEmail, c.contactMobile, c.contactPhone,
      c.siteName, c.siteAddress1, c.siteAddress2, c.siteContact, c.effectiveDate, c.serviceType,
      loc, leadId, isoNow)
  }

  /** The calls one record makes and, when it fails, the message logged for it. */
  datatype Step = Step(calls: seq<Event>, failure: Option<string>)

  /** The body of the `try` block for one contract, and its `catch`. */
  function Outcome(c: ContractData, rep: Replies, toIso: string -> Option<string>): (r: Step)
    ensures |r.calls| <= 4
    ensures r.failure == None ==> |r.calls| == 4
  {
    var d := ContractToLead(c, toIso);
    match Geocode(d.address, rep.geocode)
    case Failure(t) =>
      Step(if d.address == "" then [] else [GeocodeRequest(d.address)], Some(Message(t, UnknownError)))
    case Success(loc) =>
      var created := [GeocodeRequest(d.address), CreateLead(d, loc, true)];
      match rep.createLead
      case Failure(t) => Step(created, Some(Message(t, UnknownError)))
      case Success(id) =>
        var marked := created + [MarkContacted(FullLead(id, d, loc), "Imported from contract on " + rep.localDate)];
        match rep.markContacted
        case Some(t) => Step(marked, Some(Message(t, UnknownError)))
        case None =>
          var stored := marked + [CreateContract(RecordOf(c, loc, id, rep.isoNow))];
          match rep.createContract
          case Some(t) => Step(stored, Some(Message(t, UnknownError)))
          case None => Step(stored, None)
  }

  /** A record without a usable address fails with the geocoder's message
      and makes no call at all: nothing is written for it. */
  lemma EmptyAddressWritesNothing(c: ContractData, rep: Replies, toIso: string -> Option<string>)
    requires LeadAddress(c) == ""
    ensures Outcome(c, rep, toIso) == Step([], Some(EmptyAddress))
  {
  }

  /** A record is imported exactly when it has an address, the geocoder finds
      it and all three writes succeed. */
  lemma ImportedIff(c: ContractData, rep: Replies, toIso: string -> Option<string>)
    ensures Outcome(c, rep, toIso).failure == None <==>
              LeadAddress(c) != "" && rep.geocode.Located? && rep.createLead.Success?
              && rep.markContacted == None && rep.createContract == None
  {
  }

  /** Once the lead is created it stays created: a later failure adds no
      call that undoes it, and the stored contract links to that lead. */
  lemma LeadWrittenBeforeLaterSteps(c: ContractData, rep: Replies, toIso: string -> Option<string>)
    requires LeadAddress(c) != "" && rep.geocode.Located?
    ensures var d := ContractToLead(c, toIso);
            |Outcome(c, rep, toIso).calls| >= 2
            && Outcome(c, rep, toIso).calls[..2] == [GeocodeRequest(d.address), CreateLead(d, rep.geocode.location, true)]
    ensures forall e :: e in Outcome(c, rep, toIso).calls && e.CreateContract? ==>
              rep.createLead.Success? && e.record.linkedLeadId == rep.createLead.value
    ensures forall e :: e in Outcome(c, rep, toIso).calls && e.MarkContacted? ==>
              rep.createLead.Success? && e.lead.id == rep.createLead.value && e.lead.isManual == Some(true)
  {
  }

  /** The whole `try` block for record `k`: the progress report is its first
      statement, so a callback that throws fails the record before any call. */
  function Attempt(c: ContractData, rep: Replies, notify: bool, toIso: string -> Option<string>): (r: Step)
    ensures !notify ==> r == Outcome(c, rep, toIso)
    ensures notify && rep.onProgress.Some? ==> r.calls == [] && r.failure.Some?
  {
    if notify && rep.onProgress.Some? then Step([], Some(Message(rep.onProgress.value, UnknownError)))
    else Outcome(c, rep, toIso)
  }

  /** A record is imported exactly when the progress report before it (if
      any) returns, it has an address, the geocoder finds it and all three
      writes succeed; a throwing report fails it with the thrown message and
      makes no call. */
  lemma AttemptImportedIff(c: ContractData, rep: Replies, notify: bool, toIso: string -> Option<string>)
    ensures Attempt(c, rep, notify, toIso).failure == None <==>
              (!notify || rep.onProgress == None)
              && LeadAddress(c) != "" && rep.geocode.Located? && rep.createLead.Success?
              && rep.markContacted == None && rep.createContract == None
    ensures notify && rep.onProgress.Some? ==>
              Attempt(c, rep, notify, toIso) == Step([], Some(Message(rep.onProgress.value, UnknownError)))
  {
    ImportedIff(c, rep, toIso);
  }

  /** The steps of `importContractsToLeads` for one record, one awaited call
      after the other. */
  method ImportOne(c: ContractData, rep: Replies, toIso: string -> Option<string>)
    returns (calls: seq<Event>, failure: Option<string>)
    ensures Step(calls, failure) == Outcome(c, rep, toIso)
  {
    calls := [];
    var leadData := ContractToLead(c, toIso);
    if leadData.address == "" {
      return calls, Some(EmptyAddress);
    }
    calls := calls + [GeocodeRequest(leadData.address)];
    var located := Geocode(leadData.address, rep.geocode);
    if located.Failure? {
      return calls, Some(Message(located.error, UnknownError));
    }
    var location := located.value;
    calls := calls + [CreateLead(leadData, location, true)];
    if rep.createLead.Failure? {
      return calls, Some(Message(rep.createLead.error, UnknownError));
    }
    var leadId := rep.createLead.value;
    calls := calls + [MarkContacted(FullLead(leadId, leadData, location), "Imported from contract on " + rep.localDate)];
    if rep.markContacted.Some? {
      return calls, Some(Message(rep.markContacted.value, UnknownError));
    }
    calls := calls + [CreateContract(RecordOf(c, location, leadId, rep.isoNow))];
    if rep.createContract.Some? {
      return calls, Some(Message(rep.createContract.value, UnknownError));
    }
    failure := None;
  }

  // ---------------------------------------------------------------------------
  // The batch

  /** `Contract k`, numbering the records from 1. */
  function Label(k: nat): string {
    "Contract " + NatToString(k + 1)
  }

  /** Labels name their records: two records never share a label. */
  lemma LabelInjective(j: nat, k: nat)
    requires Label(j) == Label(k)
    ensures j == k
  {
    assert Label(j)[9..] == NatToString(j + 1);
    assert Label(k)[9..] == NatToString(k + 1);
    NatToStringInjective(j + 1, k + 1);
  }

  /** The report made before record `k` of `total`. */
  function Before(k: nat, total: nat): ImportProgress {
    ImportProgress(k, total, Label(k) + "/" + NatToString(total), Processing)
  }

  /** The report made after the last record. */
  function Finished(total: nat, success: bool): ImportProgress {
    ImportProgress(total, total, "Complete", if success then Completed else Errored)
  }

  /** What each record does on its own, in record order. */
  function Steps(cs: seq<ContractData>, reps: seq<Replies>, notify: bool,
                 toIso: string -> Option<string>): (r: seq<Step>)
    requires |reps| == |cs|
    ensures |r| == |cs|
    ensures forall k :: 0 <= k < |cs| ==> r[k] == Attempt(cs[k], reps[k], notify, toIso)
  {
    seq(|cs|, k requires 0 <= k < |cs| => Attempt(cs[k], reps[k], notify, toIso))
  }

  datatype Run = Run(result: ImportResult, trace: seq<Event>)

  /** One pass of the loop body over record `k`: report, run the record,
      then count it as imported or log its failure. */
  function Next(run: Run, step: Step, k: nat, total: nat, notify: bool): Run {
    var report := if notify then [Progress(Before(k, total))] else [];
    var res := run.result;
    var res' :=
      if step.failure == None then res.(importedCount := res.importedCount + 1)
      else res.(success := false, failedCount := res.failedCount + 1,
                errors := res.errors + [ImportError(Label(k), step.failure.value)]);
    Run(res', run.trace + report + step.calls)
  }

  /** The state after the loop has run over the records whose steps are
      given, out of `total`; `notify` says whether a progress callback was
      passed. */
  function Loop(steps: seq<Step>, total: nat, notify: bool): Run
    decreases |steps|
  {
    if steps == [] then Run(ImportResult(true, 0, 0, []), [])
    else Next(Loop(steps[..|steps| - 1], total, notify), steps[|steps| - 1], |steps| - 1, total, notify)
  }

  lemma LoopStep(steps: seq<Step>, i: nat, total: nat, notify: bool)
    requires i < |steps|
    ensures Loop(steps[..i + 1], total, notify) == Next(Loop(steps[..i], total, notify), steps[i], i, total, notify)
  {
    assert steps[..i + 1][..i] == steps[..i];
  }

  /** How the returned promise settles, and the calls made on the way. */
  datatype Settled = Settled(value: Result<ImportResult, Thrown>, trace: seq<Event>)

  /** `importContractsToLeads`: the loop, then the final report, which lies
      outside every `try`: when the callback throws there, the promise
      rejects with what it threw. `final` is the callback's reply to it. */
  function Import(cs: seq<ContractData>, reps: seq<Replies>, notify: bool, final: Option<Thrown>,
                  toIso: string -> Option<string>): (r: Settled)
    requires |reps| == |cs|
    ensures r.value.Failure? <==> notify && final.Some?
  {
    var run := Loop(Steps(cs, reps, notify, toIso), |cs|, notify);
    Settled(if notify && final.Some? then Failure(final.value) else Success(run.result),
            run.trace + if notify then [Progress(Finished(|cs|, run.result.success))] else [])
  }

  /** One pass of the loop body: the progress report, the record's calls,
      and the counters and error list updated by its outcome. */
  method ImportNext(result: ImportResult, trace: seq<Event>, i: nat, total: nat, c: ContractData,
                    rep: Replies, notify: bool, toIso: string -> Option<string>)
    returns (result': ImportResult, trace': seq<Event>)
    ensures Run(result', trace') == Next(Run(result, trace), Attempt(c, rep, notify, toIso), i, total, notify)
  {
    trace' := trace;
    if notify {
      trace' := trace' + [Progress(Before(i, total))];
    } else {
      assert trace + [] == trace;
    }
    var calls, failure;
    if notify && rep.onProgress.Some? {
      calls, failure := [], Some(Message(rep.onProgress.value, UnknownError));
    } else {
      calls, failure := ImportOne(c, rep, toIso);
    }
    trace' := trace' + calls;
    if failure == None {
      result' := result.(importedCount := result.importedCount + 1);
    } else {
      result' := result.(failedCount := result.failedCount + 1, success := false,
                         errors := result.errors + [ImportError(Label(i), failure.value)]);
    }
  }

  method ImportContractsToLeads(contracts: seq<ContractData>, replies: seq<Replies>, notify: bool,
                                final: Option<Thrown>, toIso: string -> Option<string>)
    returns (settled: Result<ImportResult, Thrown>, trace: seq<Event>)
    requires |replies| == |contracts|
    ensures Settled(settled, trace) == Import(contracts, replies, notify, final, toIso)
  {
    ghost var steps := Steps(contracts, replies, notify, toIso);
    var result := ImportResult(true, 0, 0, []);
    trace := [];
    for i := 0 to |contracts|
      invariant Run(result, trace) == Loop(steps[..i], |contracts|, notify)
    {
      result, trace := ImportNext(result, trace, i, |contracts|, contracts[i], replies[i], notify, toIso);
      LoopStep(steps, i, |contracts|, notify);
    }
    assert steps[..|contracts|] == steps;
    if notify {
      trace := trace + [Progress(Finished(|contracts|, result.success))];
      if final.Some? {
        return Failure(final.value), trace;
      }
    }
    settled := Success(result);
  }

  // ---------------------------------------------------------------------------
  // What the batch promises

  /** The indices of the failing records, in increasing order. */
  function FailedIndices(steps: seq<Step>): (ks: seq<nat>)
    ensures forall j :: 0 <= j < |ks| ==> ks[j] < |steps| && steps[ks[j]].failure.Some?
    ensures forall k :: 0 <= k < |steps| && steps[k].failure.Some? ==> k in ks
    ensures forall i, j :: 0 <= i < j < |ks| ==> ks[i] < ks[j]
    decreases |steps|
  {
    if steps == [] then []
    else
      var k := |steps| - 1;
      var ks := FailedIndices(steps[..k]);
      if steps[k].failure.Some? then ks + [k] else ks
  }

  lemma {:induction false} LoopCounts(steps: seq<Step>, total: nat, notify: bool)
    ensures var r := Loop(steps, total, notify).result;
            && r.importedCount + r.failedCount == |steps|
            && r.failedCount == |FailedIndices(steps)|
            && (r.success <==> r.failedCount == 0)
            && |r.errors| == r.failedCount
    decreases |steps|
  {
    if steps != [] {
      LoopCounts(steps[..|steps| - 1], total, notify);
    }
  }

  lemma {:induction false} LoopErrors(steps: seq<Step>, total: nat, notify: bool)
    ensures var r := Loop(steps, total, notify).result;
            var ks := FailedIndices(steps);
            && |r.errors| == |ks|
            && forall j :: 0 <= j < |ks| ==>
                 r.errors[j] == ImportError(Label(ks[j]), steps[ks[j]].failure.value)
    decreases |steps|
  {
    if steps != [] {
      LoopErrors(steps[..|steps| - 1], total, notify);
    }
  }

  /** The counters and the error log: every record is either imported or
      failed, the batch succeeds exactly when none failed, and the log holds
      one entry per failed record, in record order, labelled with its 1-based
      number and carrying its own message. */
  lemma LoopAccounts(steps: seq<Step>, total: nat, notify: bool)
    ensures var r := Loop(steps, total, notify).result;
            var ks := FailedIndices(steps);
            && r.importedCount + r.failedCount == |steps|
            && r.failedCount == |ks|
            && (r.success <==> r.failedCount == 0)
            && |r.errors| == r.failedCount
            && forall j :: 0 <= j < |ks| ==>
                 r.errors[j] == ImportError(Label(ks[j]), steps[ks[j]].failure.value)
  {
    LoopCounts(steps, total, notify);
    LoopErrors(steps, total, notify);
  }


  /** The promise rejects exactly when the final report throws; otherwise it
      resolves to the counters and the log: every record is imported or
      failed, the batch succeeds exactly when none failed, and the log holds
      one entry per failed record, in record order, with its own message. */
  lemma ImportAccounts(cs: seq<ContractData>, reps: seq<Replies>, notify: bool, final: Option<Thrown>,
                       toIso: string -> Option<string>)
    requires |reps| == |cs|
    ensures Import(cs, reps, notify, final, toIso).value.Failure? <==> notify && final.Some?
    ensures notify && final.Some? ==> Import(cs, reps, notify, final, toIso).value.error == final.value
    ensures Import(cs, reps, notify, final, toIso).value.Success? ==>
            var r := Import(cs, reps, notify, final, toIso).value.value;
            var ks := FailedIndices(Steps(cs, reps, notify, toIso));
            && r.importedCount + r.failedCount == |cs|
            && (r.success <==> r.failedCount == 0)
            && |r.errors| == r.failedCount
            && r.failedCount == |ks|
            && (forall k :: k in ks <==> 0 <= k < |cs| && Attempt(cs[k], reps[k], notify, toIso).failure.Some?)
            && forall j :: 0 <= j < |ks| ==>
                 r.errors[j] == ImportError(Label(ks[j]), Attempt(cs[ks[j]], reps[ks[j]], notify, toIso).failure.value)
  {
    LoopAccounts(Steps(cs, reps, notify, toIso), |cs|, notify);
  }

  /** The progress reports in a trace. */
  function Reports(trace: seq<Event>): (r: seq<ImportProgress>)
    ensures |r| <= |trace|
  {
    if trace == [] then []
    else (if trace[0].Progress? then [trace[0].progress] else []) + Reports(trace[1..])
  }

  lemma {:induction false} ReportsAppend(a: seq<Event>, b: seq<Event>)
    ensures Reports(a + b) == Reports(a) + Reports(b)
    decreases |a|
  {
    if a == [] {
      assert a + b == b;
    } else {
      assert (a + b)[0] == a[0];
      assert (a + b)[1..] == a[1..] + b;
      ReportsAppend(a[1..], b);
    }
  }

  lemma {:induction false} NoReports(calls: seq<Event>)
    requires forall e :: e in calls ==> !e.Progress?
    ensures Reports(calls) == []
    decreases |calls|
  {
    if calls != [] {
      assert calls[0] in calls;
      NoReports(calls[1..]);
    }
  }

  /** A record's own calls are never progress reports. */
  lemma OutcomeReportsNothing(c: ContractData, rep: Replies, toIso: string -> Option<string>)
    ensures Reports(Outcome(c, rep, toIso).calls) == []
  {
    NoReports(Outcome(c, rep, toIso).calls);
  }

  predicate Quiet(steps: seq<Step>) {
    forall k :: 0 <= k < |steps| ==> Reports(steps[k].calls) == []
  }

  /** With a callback, the loop reports once before each record, in order,
      with the record's number, the total and the status `processing`. */
  lemma {:induction false} LoopReports(steps: seq<Step>, total: nat)
    requires Quiet(steps)
    ensures Reports(Loop(steps, total, true).trace) == seq(|steps|, k requires 0 <= k => Before(k, total))
    decreases |steps|
  {
    if steps != [] {
      var k := |steps| - 1;
      var before := Loop(steps[..k], total, true);
      var report := Before(k, total);
      assert Loop(steps, total, true).trace == before.trace + [Progress(report)] + steps[k].calls;
      assert Reports(steps[k].calls) == [];
      LoopReports(steps[..k], total);
      ReportsAppend(before.trace + [Progress(report)], steps[k].calls);
      ReportsAppend(before.trace, [Progress(report)]);
      assert seq(k + 1, j requires 0 <= j => Before(j, total))
          == seq(k, j requires 0 <= j => Before(j, total)) + [report];
    }
  }

  /** The callback fires N + 1 times: before each record, then once with
      `Complete`, whose status says whether every record was imported. */
  lemma ImportReports(cs: seq<ContractData>, reps: seq<Replies>, final: Option<Thrown>,
                      toIso: string -> Option<string>)
    requires |reps| == |cs|
    ensures var r := Loop(Steps(cs, reps, true, toIso), |cs|, true).result;
            var ps := Reports(Import(cs, reps, true, final, toIso).trace);
            && |ps| == |cs| + 1
            && (forall k :: 0 <= k < |cs| ==> ps[k] == Before(k, |cs|))
            && ps[|cs|] == Finished(|cs|, r.success)
            && (ps[|cs|].status == Completed <==> r.failedCount == 0)
  {
    var steps := Steps(cs, reps, true, toIso);
    forall k | 0 <= k < |steps| ensures Reports(steps[k].calls) == [] {
      OutcomeReportsNothing(cs[k], reps[k], toIso);
    }
    var run := Loop(steps, |cs|, true);
    LoopReports(steps, |cs|);
    LoopAccounts(steps, |cs|, true);
    ReportsAppend(run.trace, [Progress(Finished(|cs|, run.result.success))]);
  }

  /** Without a callback the trace holds no report at all. */
  lemma {:induction false} SilentWithoutCallback(steps: seq<Step>, total: nat)
    requires Quiet(steps)
    ensures Reports(Loop(steps, total, false).trace) == []
    decreases |steps|
  {
    if steps != [] {
      var k := |steps| - 1;
      assert forall j :: 0 <= j < k ==> steps[..k][j] == steps[j];
      SilentWithoutCallback(steps[..k], total);
      var before := Loop(steps[..k], total, false).trace;
      assert before + [] == before;
      ReportsAppend(before, steps[k].calls);
    }
  }

  /** The records' own calls, concatenated in record order. */
  function CallsOf(steps: seq<Step>): seq<Event>
    decreases |steps|
  {
    if steps == [] then [] else CallsOf(steps[..|steps| - 1]) + steps[|steps| - 1].calls
  }

  /** Failures are isolated: without a callback the trace is each record's
      own calls, record after record, so what record k does depends on
      record k and its replies alone, whatever happened before it. */
  lemma {:induction false} LoopIsolates(steps: seq<Step>, total: nat)
    ensures Loop(steps, total, false).trace == CallsOf(steps)
    decreases |steps|
  {
    if steps != [] {
      LoopIsolates(steps[..|steps| - 1], total);
    }
  }

  /** Three contracts of which the second fails: two are imported, and the
      log names the second one only. */
  lemma SecondOfThreeFails(steps: seq<Step>)
    requires |steps| == 3
    requires steps[0].failure == None && steps[1].failure.Some? && steps[2].failure == None
    ensures var r := Loop(steps, 3, false).result;
            && r.importedCount == 2 && r.failedCount == 1 && !r.success
            && r.errors == [ImportError("Contract 2", steps[1].failure.value)]
  {
    LoopAccounts(steps, 3, false);
    OnlySecondFailed(steps);
    SecondLabel();
    var r := Loop(steps, 3, false).result;
    assert r.errors == [r.errors[0]];
  }

  lemma OnlySecondFailed(steps: seq<Step>)
    requires |steps| == 3
    requires steps[0].failure == None && steps[1].failure.Some? && steps[2].failure == None
    ensures FailedIndices(steps) == [1]
  {
    assert steps[..1][..0] == [] && steps[..2][..1] == steps[..1] && steps[..3][..2] == steps[..2];
    assert FailedIndices(steps[..1]) == [];
    assert FailedIndices(steps[..2]) == [1];
  }

  lemma SecondLabel()
    ensures Label(1) == "Contract 2"
  {
    assert NatToString(2) == "2";
  }
}
