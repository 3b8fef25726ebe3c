/** The lead list behind the search results and the contacts page
    (`useLeadData` in `src/hooks/useLeadData.ts`). The stored metadata of
    each lead is merged into the search results, and the user's actions are
    written to the store first and then applied to the local list, lead by
    lead, keyed by id. The store is an oracle: each action receives the
    store's answer (nothing, or what it throws) and the clock's ISO time. */
module LeadData {
  import opened Common
  import opened Leads

  // ---------------------------------------------------------------------------
  // Changes to one lead

  /** The fields `updateContactInfo` may set. */
  datatype ContactData = ContactData(contactPerson: Option<string>, email: Option<string>, contactNotes: Option<string>)

  /** The local update each action applies to the leads carrying its id. */
  datatype Change =
    | Contacted(date: string, notes: Option<string>)
    | Uncontacted
    | NotInterested(date: string, reason: Option<string>)
    | ContactInfo(data: ContactData)

  /** One lead after a change: the fields the action names are set (an
      empty or missing note, reason or contact value keeps the old one) and
      every other field is as it was. */
  function Apply(lead: Lead, ch: Change): (r: Lead)
    ensures r.id == lead.id
    ensures ch.Contacted? ==>
              r.contacted == Some(true) && r.contactedDate == Some(ch.date)
              && (Truthy(ch.notes) ==> r.contactNotes == ch.notes)
              && (!Truthy(ch.notes) ==> r.contactNotes == lead.contactNotes)
              && r.(contacted := lead.contacted, contactedDate := lead.contactedDate,
                    contactNotes := lead.contactNotes) == lead
    ensures ch.Uncontacted? ==>
              r.contacted == Some(false) && r.contactedDate == None
              && r.(contacted := lead.contacted, contactedDate := lead.contactedDate) == lead
    ensures ch.NotInterested? ==>
              r.notInterested == Some(true) && r.notInterestedDate == Some(ch.date)
              && (Truthy(ch.reason) ==> r.rejectionReason == ch.reason)
              && (!Truthy(ch.reason) ==> r.rejectionReason == lead.rejectionReason)
              && r.(notInterested := lead.notInterested, notInterestedDate := lead.notInterestedDate,
                    rejectionReason := lead.rejectionReason) == lead
    ensures ch.ContactInfo? ==>
              (Truthy(ch.data.contactPerson) ==> r.contactPerson == ch.data.contactPerson)
              && (!Truthy(ch.data.contactPerson) ==> r.contactPerson == lead.contactPerson)
              && (Truthy(ch.data.email) ==> r.email == ch.data.email)
              && (!Truthy(ch.data.email) ==> r.email == lead.email)
              && (Truthy(ch.data.contactNotes) ==> r.contactNotes == ch.data.contactNotes)
              && (!Truthy(ch.data.contactNotes) ==> r.contactNotes == lead.contactNotes)
              && r.(contactPerson := lead.contactPerson, email := lead.email,
                    contactNotes := lead.contactNotes) == lead
  {
    match ch
    case Contacted(date, notes) =>
      lead.(contacted := Some(true), contactedDate := Some(date), contactNotes := OrElse(notes, lead.contactNotes))
    case Uncontacted =>
      lead.(contacted := Some(false), contactedDate := None)
    case NotInterested(date, reason) =>
      lead.(notInterested := Some(true), notInterestedDate := Some(date),
            rejectionReason := OrElse(reason, lead.rejectionReason))
    case ContactInfo(data) =>
      lead.(contactPerson := OrElse(data.contactPerson, lead.contactPerson),
            email := OrElse(data.email, lead.email),
            contactNotes := OrElse(data.contactNotes, lead.contactNotes))
  }

  /** `prevLeads.map(lead => lead.id === id ? change(lead) : lead)`. */
  function UpdateWhere(leads: seq<Lead>, id: string, ch: Change): (r: seq<Lead>)
    ensures |r| == |leads|
    ensures forall i :: 0 <= i < |leads| ==> r[i].id == leads[i].id
    ensures forall i :: 0 <= i < |leads| && leads[i].id != id ==> r[i] == leads[i]
    ensures forall i :: 0 <= i < |leads| && leads[i].id == id ==> r[i] == Apply(leads[i], ch)
  {
    seq(|leads|, i requires 0 <= i < |leads| => if leads[i].id == id then Apply(leads[i], ch) else leads[i])
  }

  /** An id that no lead carries changes nothing. */
  lemma UpdateAbsentId(leads: seq<Lead>, id: string, ch: Change)
    requires forall i :: 0 <= i < |leads| ==> leads[i].id != id
    ensures UpdateWhere(leads, id, ch) == leads
  {
  }

  /** A contact-info edit whose values are all empty or missing leaves the
      list as it was. */
  lemma EmptyContactInfoNoop(leads: seq<Lead>, id: string, data: ContactData)
    requires !Truthy(data.contactPerson) && !Truthy(data.email) && !Truthy(data.contactNotes)
    ensures UpdateWhere(leads, id, ContactInfo(data)) == leads
  {
    forall i | 0 <= i < |leads|
      ensures UpdateWhere(leads, id, ContactInfo(data))[i] == leads[i]
    {
      if leads[i].id == id {
        var l := leads[i];
        var r := Apply(l, ContactInfo(data));
        assert r.(contactPerson := l.contactPerson, email := l.email, contactNotes := l.contactNotes) == r;
      }
    }
  }

  /** Repeating an action gives the same list as doing it once. */
  lemma {:induction false} UpdateTwice(leads: seq<Lead>, id: string, ch: Change)
    ensures UpdateWhere(UpdateWhere(leads, id, ch), id, ch) == UpdateWhere(leads, id, ch)
  {
    var once := UpdateWhere(leads, id, ch);
    forall i | 0 <= i < |leads|
      ensures UpdateWhere(once, id, ch)[i] == once[i]
    {
      if leads[i].id == id {
        ApplyTwice(leads[i], ch);
      }
    }
  }

  lemma ApplyTwice(lead: Lead, ch: Change)
    ensures Apply(Apply(lead, ch), ch) == Apply(lead, ch)
  {
  }

  /** Marking a lead uncontacted after marking it contacted leaves it
      uncontacted with no date, whatever the notes were. */
  lemma ContactedThenUncontacted(leads: seq<Lead>, id: string, date: string, notes: Option<string>, i: int)
    requires 0 <= i < |leads| && leads[i].id == id
    ensures var r := UpdateWhere(UpdateWhere(leads, id, Contacted(date, notes)), id, Uncontacted);
            r[i].contacted == Some(false) && r[i].contactedDate == None
  {
  }

  /** `prevLeads.filter(lead => lead.id !== id)`. */
  function DeleteWhere(leads: seq<Lead>, id: string): (r: seq<Lead>)
    ensures |r| == |leads| - CountId(leads, id)
    decreases |leads|
  {
    if leads == [] then []
    else (if leads[0].id == id then [] else [leads[0]]) + DeleteWhere(leads[1..], id)
  }

  /** Deleting splits over a concatenation, so the remaining leads keep
      their order. */
  lemma {:induction false} DeleteAppend(a: seq<Lead>, b: seq<Lead>, id: string)
    ensures DeleteWhere(a + b, id) == DeleteWhere(a, id) + DeleteWhere(b, id)
    decreases |a|
  {
    if a == [] {
      assert a + b == b;
    } else {
      assert (a + b)[0] == a[0];
      assert (a + b)[1..] == a[1..] + b;
      DeleteAppend(a[1..], b, id);
    }
  }

  /** Deleting removes every lead with the id and no other: each other lead
      is kept as many times as it occurred. */
  lemma {:induction false} DeleteExactly(leads: seq<Lead>, id: string, l: Lead)
    ensures l.id == id ==> multiset(DeleteWhere(leads, id))[l] == 0
    ensures l.id != id ==> multiset(DeleteWhere(leads, id))[l] == multiset(leads)[l]
    decreases |leads|
  {
    if leads != [] {
      DeleteExactly(leads[1..], id, l);
      assert leads == [leads[0]] + leads[1..];
    }
  }

  // ---------------------------------------------------------------------------
  // Merging the stored metadata

  /** A Firestore timestamp field: a `Timestamp` (whose `toDate()` gives an
      ISO string) or some other truthy value without `toDate`. */
  datatype Stamp = Timestamp(iso: string) | NoToDate

  /** `LeadMetadata`, the declared fields of a lead's stored document;
      `None` is an absent or null field. */
  datatype Metadata = Metadata(
    contactPerson: Option<string>,
    email: Option<string>,
    contacted: Option<bool>,
    contactedDate: Option<Stamp>,
    contactNotes: Option<string>,
    notInterested: Option<bool>,
    notInterestedDate: Option<Stamp>,
    rejectionReason: Option<string>)

  /** What `getLeadData` gives for one lead: the document, no document
      (`null`), or a throw. */
  datatype Fetched = Found(metadata: Metadata) | Missing | FetchFailed

  /** A stored date when it converts, else the lead's own. */
  function StampOr(stamp: Option<Stamp>, own: Option<string>): (r: Option<string>)
    ensures stamp.Some? && stamp.value.Timestamp? && stamp.value.iso != "" ==> r == Some(stamp.value.iso)
    ensures stamp.Some? && stamp.value.Timestamp? && stamp.value.iso == "" ==> r == own
    ensures !(stamp.Some? && stamp.value.Timestamp?) ==> r == own
  {
    if stamp.Some? && stamp.value.Timestamp? then OrElse(Some(stamp.value.iso), own) else own
  }

  /** One lead merged with its fetched metadata: each stored field wins
      when it is truthy, the lead's own value otherwise; a lead whose fetch
      failed or has no document is kept as it is. */
  function Merge(lead: Lead, fetched: Fetched): (r: Lead)
    ensures r.id == lead.id
    ensures !fetched.Found? ==> r == lead
    ensures fetched.Found? ==> var m := fetched.metadata;
              && (Truthy(m.contactPerson) ==> r.contactPerson == m.contactPerson)
              && (!Truthy(m.contactPerson) ==> r.contactPerson == lead.contactPerson)
              && (Truthy(m.email) ==> r.email == m.email)
              && (!Truthy(m.email) ==> r.email == lead.email)
              && (Truthy(m.contactNotes) ==> r.contactNotes == m.contactNotes)
              && (!Truthy(m.contactNotes) ==> r.contactNotes == lead.contactNotes)
              && (Truthy(m.rejectionReason) ==> r.rejectionReason == m.rejectionReason)
              && (!Truthy(m.rejectionReason) ==> r.rejectionReason == lead.rejectionReason)
    ensures fetched.Found? ==> var m := fetched.metadata;
              && (m.contacted == Some(true) ==> r.contacted == Some(true))
              && (m.contacted != Some(true) ==> r.contacted == lead.contacted)
              && (m.notInterested == Some(true) ==> r.notInterested == Some(true))
              && (m.notInterested != Some(true) ==> r.notInterested == lead.notInterested)
    ensures fetched.Found? ==> var m := fetched.metadata;
              && r.contactedDate == StampOr(m.contactedDate, lead.contactedDate)
              && r.notInterestedDate == StampOr(m.notInterestedDate, lead.notInterestedDate)
    ensures lead.contacted == Some(true) ==> r.contacted == Some(true)
    ensures lead.notInterested == Some(true) ==> r.notInterested == Some(true)
    ensures r.(contactPerson := lead.contactPerson, email := lead.email, contacted := lead.contacted,
               contactedDate := lead.contactedDate, contactNotes := lead.contactNotes,
               notInterested := lead.notInterested, notInterestedDate := lead.notInterestedDate,
               rejectionReason := lead.rejectionReason) == lead
  {
    match fetched
    case Found(m) =>
      lead.(contactPerson := OrElse(m.contactPerson, lead.contactPerson),
            email := OrElse(m.email, lead.email),
            contacted := OrElseBool(m.contacted, lead.contacted),
            contactedDate := StampOr(m.contactedDate, lead.contactedDate),
            contactNotes := OrElse(m.contactNotes, lead.contactNotes),
            notInterested := OrElseBool(m.notInterested, lead.notInterested),
            notInterestedDate := StampOr(m.notInterestedDate, lead.notInterestedDate),
            rejectionReason := OrElse(m.rejectionReason, lead.rejectionReason))
    case Missing => lead
    case FetchFailed => lead
  }

  /** The effect's result: an empty list stays empty, otherwise each lead is
      merged with its own fetch, in order. */
  function MergeAll(leads: seq<Lead>, fetched: seq<Fetched>): (r: seq<Lead>)
    requires |fetched| == |leads|
    ensures |r| == |leads|
    ensures forall i :: 0 <= i < |leads| ==> r[i] == Merge(leads[i], fetched[i])
  {
    seq(|leads|, i requires 0 <= i < |leads| => Merge(leads[i], fetched[i]))
  }

  /** A document whose fields are all empty changes nothing. */
  lemma EmptyMetadataNoop(lead: Lead)
    ensures Merge(lead, Found(Metadata(None, None, None, None, None, None, None, None))) == lead
  {
    var r := Merge(lead, Found(Metadata(None, None, None, None, None, None, None, None)));
    assert r.(contactPerson := lead.contactPerson, email := lead.email, contacted := lead.contacted,
              contactedDate := lead.contactedDate, contactNotes := lead.contactNotes,
              notInterested := lead.notInterested, notInterestedDate := lead.notInterestedDate,
              rejectionReason := lead.rejectionReason) == r;
  }

  /** Merging the same document twice is merging it once, so a merged list
      is stable under the same metadata. */
  lemma MergeIdempotent(lead: Lead, fetched: Fetched)
    ensures Merge(Merge(lead, fetched), fetched) == Merge(lead, fetched)
  {
  }

  /** The merge never un-contacts a lead: every lead contacted before is
      contacted after, and every lead the store marks contacted is too. */
  lemma {:induction false} MergeAllContactedMonotone(leads: seq<Lead>, fetched: seq<Fetched>, i: int)
    requires |fetched| == |leads| && 0 <= i < |leads|
    ensures leads[i].contacted == Some(true) ==> MergeAll(leads, fetched)[i].contacted == Some(true)
    ensures fetched[i].Found? && fetched[i].metadata.contacted == Some(true) ==>
              MergeAll(leads, fetched)[i].contacted == Some(true)
  {
  }

  // ---------------------------------------------------------------------------
  // The hook's state and actions

  /** The store call an action makes. */
  datatype StoreCall =
    | MarkContactedCall(lead: Lead, notes: Option<string>)
    | MarkUncontactedCall(id: string)
    | MarkNotInterestedCall(lead: Lead, reason: Option<string>)
    | UpdateCall(id: string, data: ContactData)
    | DeleteCall(id: string)

  /** The first argument of the mark actions: an id looked up in the list,
      or the lead itself. */
  datatype Target = ById(id: string) | ByLead(lead: Lead)

  function TargetId(t: Target): string {
    match t
    case ById(id) => id
    case ByLead(lead) => lead.id
  }

  /** `leads.find(l => l.id === id)`. */
  function FindById(leads: seq<Lead>, id: string): (r: Option<Lead>)
    ensures r.Some? <==> exists i :: 0 <= i < |leads| && leads[i].id == id
    ensures r.Some? ==> r.value in leads && r.value.id == id
    ensures r.Some? ==> exists i :: 0 <= i < |leads| && leads[i] == r.value
                          && forall j :: 0 <= j < i ==> leads[j].id != id
    decreases |leads|
  {
    if leads == [] then None
    else if leads[0].id == id then Some(leads[0])
    else
      var r := FindById(leads[1..], id);
      assert forall i :: 1 <= i < |leads| ==> leads[i] == leads[1..][i - 1];
      r
  }

  /** The lead a mark action writes: the one passed, or the first in the
      list with the id. */
  function LeadToMark(t: Target, leads: seq<Lead>): (r: Option<Lead>)
    ensures t.ByLead? ==> r == Some(t.lead)
    ensures t.ById? ==> r == FindById(leads, t.id)
  {
    match t
    case ById(id) => FindById(leads, id)
    case ByLead(lead) => Some(lead)
  }

  function NotFound(id: string): string {
    "Lead with id " + id + " not found"
  }

  class LeadList {
    /** `enhancedLeads`. */
    var enhancedLeads: seq<Lead>
    /** `error`. */
    var error: Option<string>

    constructor(leads: seq<Lead>)
      ensures enhancedLeads == leads && error == None
    {
      enhancedLeads := leads;
      error := None;
    }

    /** The metadata effect. Each per-lead fetch catches its own failure,
        so the fetches together never throw. */
    method Refresh(leads: seq<Lead>, fetched: seq<Fetched>)
      requires |fetched| == |leads|
      modifies this
      ensures leads == [] ==> enhancedLeads == [] && error == old(error)
      ensures leads != [] ==> enhancedLeads == MergeAll(leads, fetched) && error == None
    {
      if |leads| == 0 {
        enhancedLeads := [];
        return;
      }
      error := None;
      enhancedLeads := MergeAll(leads, fetched);
    }

    /** The failure path shared by every action: record the message and
        rethrow. */
    method Fail(t: Thrown, fallback: string) returns (thrown: Option<Thrown>)
      modifies this
      ensures thrown == Some(t)
      ensures error == Some(Message(t, fallback))
      ensures enhancedLeads == old(enhancedLeads)
    {
      error := Some(Message(t, fallback));
      thrown := Some(t);
    }

    /** `markAsContacted`: an unknown id throws before the store is called;
        otherwise the store is called and, if it does not throw, the leads
        with the id are marked. */
    method MarkAsContacted(target: Target, notes: Option<string>, now: string, store: Option<Thrown>)
      returns (call: Option<StoreCall>, thrown: Option<Thrown>)
      modifies this
      ensures var found := LeadToMark(target, old(enhancedLeads));
              && (found.None? ==>
                    call == None && thrown == Some(ErrorObject(NotFound(TargetId(target))))
                    && enhancedLeads == old(enhancedLeads) && error == Some(NotFound(TargetId(target))))
              && (found.Some? ==> call == Some(MarkContactedCall(found.value, notes)))
              && (found.Some? && store.Some? ==>
                    thrown == store && enhancedLeads == old(enhancedLeads)
                    && error == Some(Message(store.value, "Failed to mark as contacted")))
              && (found.Some? && store.None? ==>
                    thrown == None && error == old(error)
                    && enhancedLeads == UpdateWhere(old(enhancedLeads), TargetId(target), Contacted(now, notes)))
    {
      var leadToMark := LeadToMark(target, enhancedLeads);
      var placeId := TargetId(target);
      if leadToMark.None? {
        call := None;
        thrown := Fail(ErrorObject(NotFound(placeId)), "Failed to mark as contacted");
        return;
      }
      call := Some(MarkContactedCall(leadToMark.value, notes));
      if store.Some? {
        thrown := Fail(store.value, "Failed to mark as contacted");
        return;
      }
      enhancedLeads := UpdateWhere(enhancedLeads, placeId, Contacted(now, notes));
      thrown := None;
    }

    /** `markAsUncontacted`: no lookup; the store is always called. */
    method MarkAsUncontacted(id: string, store: Option<Thrown>)
      returns (call: Option<StoreCall>, thrown: Option<Thrown>)
      modifies this
      ensures call == Some(MarkUncontactedCall(id))
      ensures store.Some? ==>
                thrown == store && enhancedLeads == old(enhancedLeads)
                && error == Some(Message(store.value, "Failed to mark as uncontacted"))
      ensures store.None? ==>
                thrown == None && error == old(error)
                && enhancedLeads == UpdateWhere(old(enhancedLeads), id, Uncontacted)
    {
      call := Some(MarkUncontactedCall(id));
      if store.Some? {
        thrown := Fail(store.value, "Failed to mark as uncontacted");
        return;
      }
      enhancedLeads := UpdateWhere(enhancedLeads, id, Uncontacted);
      thrown := None;
    }

    /** `markAsNotInterested`: as `markAsContacted`, with the reason. */
    method MarkAsNotInterested(target: Target, reason: Option<string>, now: string, store: Option<Thrown>)
      returns (call: Option<StoreCall>, thrown: Option<Thrown>)
      modifies this
      ensures var found := LeadToMark(target, old(enhancedLeads));
              && (found.None? ==>
                    call == None && thrown == Some(ErrorObject(NotFound(TargetId(target))))
                    && enhancedLeads == old(enhancedLeads) && error == Some(NotFound(TargetId(target))))
              && (found.Some? ==> call == Some(MarkNotInterestedCall(found.value, reason)))
              && (found.Some? && store.Some? ==>
                    thrown == store && enhancedLeads == old(enhancedLeads)
                    && error == Some(Message(store.value, "Failed to mark as not interested")))
              && (found.Some? && store.None? ==>
                    thrown == None && error == old(error)
                    && enhancedLeads == UpdateWhere(old(enhancedLeads), TargetId(target), NotInterested(now, reason)))
    {
      var leadToMark := LeadToMark(target, enhancedLeads);
      var placeId := TargetId(target);
      if leadToMark.None? {
        call := None;
        thrown := Fail(ErrorObject(NotFound(placeId)), "Failed to mark as not interested");
        return;
      }
      call := Some(MarkNotInterestedCall(leadToMark.value, reason));
      if store.Some? {
        thrown := Fail(store.value, "Failed to mark as not interested");
        return;
      }
      enhancedLeads := UpdateWhere(enhancedLeads, placeId, NotInterested(now, reason));
      thrown := None;
    }

    /** `updateContactInfo`. */
    method UpdateContactInfo(id: string, data: ContactData, store: Option<Thrown>)
      returns (call: Option<StoreCall>, thrown: Option<Thrown>)
      modifies this
      ensures call == Some(UpdateCall(id, data))
      ensures store.Some? ==>
                thrown == store && enhancedLeads == old(enhancedLeads)
                && error == Some(Message(store.value, "Failed to update contact info"))
      ensures store.None? ==>
                thrown == None && error == old(error)
                && enhancedLeads == UpdateWhere(old(enhancedLeads), id, ContactInfo(data))
    {
      call := Some(UpdateCall(id, data));
      if store.Some? {
        thrown := Fail(store.value, "Failed to update contact info");
        return;
      }
      enhancedLeads := UpdateWhere(enhancedLeads, id, ContactInfo(data));
      thrown := None;
    }

    /** `deleteLead`. */
    method DeleteLead(id: string, store: Option<Thrown>)
      returns (call: Option<StoreCall>, thrown: Option<Thrown>)
      modifies this
      ensures call == Some(DeleteCall(id))
      ensures store.Some? ==>
                thrown == store && enhancedLeads == old(enhancedLeads)
                && error == Some(Message(store.value, "Failed to delete lead"))
      ensures store.None? ==>
                thrown == None && error == old(error)
                && enhancedLeads == DeleteWhere(old(enhancedLeads), id)
    {
      call := Some(DeleteCall(id));
      if store.Some? {
        thrown := Fail(store.value, "Failed to delete lead");
        return;
      }
      enhancedLeads := DeleteWhere(enhancedLeads, id);
      thrown := None;
    }
  }
}
