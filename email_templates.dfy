/** E-mail templates and placeholder filling (`src/lib/email-templates.ts`).

    A template's subject and body may hold the placeholders `{{name}}`,
    `{{address}}` and `{{contactPerson}}`. Filling replaces every occurrence
    of each placeholder, one placeholder after the other, by the lead's
    value for it. */
module EmailTemplates {
  import opened Common
  import opened Leads

  datatype EmailTemplate = EmailTemplate(id: string, name: string, subject: string, body: string, description: string)

  // ---------------------------------------------------------------------------
  // Literal replace-all

  /** `s.replace(new RegExp(p, 'g'), v)` for a pattern `p` without regular
      expression operators: scanning from the left, each occurrence of `p`
      is replaced by `v` and scanning resumes after it. */
  function ReplaceAll(s: string, p: string, v: string): (r: string)
    requires p != []
    decreases |s|
  {
    if |s| < |p| then s
    else if s[..|p|] == p then v + ReplaceAll(s[|p|..], p, v)
    else [s[0]] + ReplaceAll(s[1..], p, v)
  }

  /** Text without the pattern comes back unchanged. */
  lemma {:induction false} ReplaceAllAbsent(s: string, p: string, v: string)
    requires p != [] && !Contains(s, p)
    ensures ReplaceAll(s, p, v) == s
    decreases |s|
  {
    if |s| >= |p| {
      ReplaceAllAbsent(s[1..], p, v);
    }
  }

  /** Text that cannot start an occurrence of `p` at any of its positions
      (checked on the first three characters of `p`). */
  predicate Inert(x: string, p: string) {
    |p| >= 3 && forall i :: 0 <= i < |x| ==> NoStartAt(x, p, i)
  }

  predicate NoStartAt(x: string, p: string, i: nat)
    requires |p| >= 3 && i < |x|
  {
    x[i] != p[0] || (i + 1 < |x| && x[i + 1] != p[1]) || (i + 2 < |x| && x[i + 2] != p[2])
  }

  /** An occurrence of `p` cannot start at the head of an inert text. */
  lemma InertNoMatch(x: string, rest: string, p: string)
    requires Inert(x, p) && x != [] && |x + rest| >= |p|
    ensures (x + rest)[..|p|] != p
  {
    var q := (x + rest)[..|p|];
    assert NoStartAt(x, p, 0);
    if x[0] != p[0] {
      assert q[0] == x[0];
    } else if 1 < |x| && x[1] != p[1] {
      assert q[1] == x[1];
    } else {
      assert q[2] == x[2];
    }
  }

  lemma InertTail(x: string, p: string)
    requires Inert(x, p) && x != []
    ensures Inert(x[1..], p)
  {
    forall i | 0 <= i < |x| - 1
      ensures NoStartAt(x[1..], p, i)
    {
      assert NoStartAt(x, p, i + 1);
      assert x[1..][i] == x[i + 1];
      if i + 1 < |x| - 1 { assert x[1..][i + 1] == x[i + 2]; }
      if i + 2 < |x| - 1 { assert x[1..][i + 2] == x[i + 3]; }
    }
  }

  /** An inert prefix is copied as it is, whatever follows it. */
  lemma {:induction false} ReplaceAfterInert(x: string, rest: string, p: string, v: string)
    requires Inert(x, p)
    ensures ReplaceAll(x + rest, p, v) == x + ReplaceAll(rest, p, v)
    decreases |x|
  {
    if x == [] {
      assert x + rest == rest;
    } else if |x + rest| >= |p| {
      InertNoMatch(x, rest, p);
      InertTail(x, p);
      ReplaceAfterInert(x[1..], rest, p, v);
      assert (x + rest)[1..] == x[1..] + rest;
      assert [x[0]] + x[1..] == x;
    } else {
      assert |rest| < |p|;
    }
  }

  /** Text without `{` is inert for any pattern that starts with `{`. */
  lemma BracelessInert(x: string, p: string)
    requires |p| >= 3 && p[0] == '{' && '{' !in x
    ensures Inert(x, p)
  {
  }

  // ---------------------------------------------------------------------------
  // Placeholders

  datatype Key = NameKey | AddressKey | ContactPersonKey

  /** The keys in the order `fillTemplate` replaces them. */
  const Keys: seq<Key> := [NameKey, AddressKey, ContactPersonKey]

  function KeyName(k: Key): string {
    match k
    case NameKey => "name"
    case AddressKey => "address"
    case ContactPersonKey => "contactPerson"
  }

  /** `{{key}}`. */
  function Placeholder(k: Key): (r: string)
    ensures |r| >= 3 && r[0] == '{' && r[1] == '{' && r[2] != '{'
  {
    "{{" + KeyName(k) + "}}"
  }

  /** No placeholder can start inside another one. */
  lemma PlaceholdersInert(j: Key, k: Key)
    requires j != k
    ensures Inert(Placeholder(j), Placeholder(k))
  {
    var x, p := Placeholder(j), Placeholder(k);
    assert forall i :: 2 <= i < |x| ==> x[i] != '{';
    assert x[2] != p[2];
  }

  /** The values a lead supplies: its name and address, `''` when absent,
      and its contact person, `'there'` when absent or empty. */
  function Value(lead: Lead, k: Key): (r: string)
    ensures k == NameKey ==> r == lead.name
    ensures k == AddressKey ==> r == lead.address
    ensures k == ContactPersonKey && Truthy(lead.contactPerson) ==> r == lead.contactPerson.value
    ensures k == ContactPersonKey && !Truthy(lead.contactPerson) ==> r == "there"
  {
    match k
    case NameKey => Text(Some(lead.name))
    case AddressKey => Text(Some(lead.address))
    case ContactPersonKey => Text(OrElse(lead.contactPerson, Some("there")))
  }

  /** The text after the first `n` placeholders have been replaced. */
  function FillFirst(s: string, lead: Lead, n: nat): string
    requires n <= |Keys|
  {
    if n == 0 then s
    else ReplaceAll(FillFirst(s, lead, n - 1), Placeholder(Keys[n - 1]), Value(lead, Keys[n - 1]))
  }

  /** Every placeholder replaced, in the order of `Keys`. */
  function Fill(s: string, lead: Lead): string {
    FillFirst(s, lead, |Keys|)
  }

  /** The filled template. */
  function Filled(t: EmailTemplate, lead: Lead): (r: EmailTemplate)
    ensures r.id == t.id && r.name == t.name && r.description == t.description
    ensures r.subject == Fill(t.subject, lead) && r.body == Fill(t.body, lead)
  {
    t.(subject := Fill(t.subject, lead), body := Fill(t.body, lead))
  }

  /** `fillTemplate`: one pass over the placeholders, each pass rewriting the
      subject and the body. */
  method FillTemplate(template: EmailTemplate, lead: Lead) returns (r: EmailTemplate)
    ensures r == Filled(template, lead)
  {
    var filledSubject := template.subject;
    var filledBody := template.body;
    for i := 0 to |Keys|
      invariant filledSubject == FillFirst(template.subject, lead, i)
      invariant filledBody == FillFirst(template.body, lead, i)
    {
      var key := Keys[i];
      var placeholder := Placeholder(key);
      filledSubject := ReplaceAll(filledSubject, placeholder, Value(lead, key));
      filledBody := ReplaceAll(filledBody, placeholder, Value(lead, key));
    }
    r := template.(subject := filledSubject, body := filledBody);
  }

  /** Text with none of the placeholders is left unchanged. */
  lemma NoPlaceholderUnchanged(s: string, lead: Lead)
    requires forall k :: !Contains(s, Placeholder(k))
    ensures Fill(s, lead) == s
  {
    ReplaceAllAbsent(s, Placeholder(NameKey), Value(lead, NameKey));
    ReplaceAllAbsent(s, Placeholder(AddressKey), Value(lead, AddressKey));
    ReplaceAllAbsent(s, Placeholder(ContactPersonKey), Value(lead, ContactPersonKey));
    assert FillFirst(s, lead, 1) == s;
    assert FillFirst(s, lead, 2) == s;
  }

  // ---------------------------------------------------------------------------
  // Templates made of text and placeholders

  /** A piece of a template: literal text without `{`, or a placeholder. */
  datatype Piece = Lit(text: string) | Hole(key: Key)

  predicate WellFormed(ps: seq<Piece>) {
    forall i :: 0 <= i < |ps| && ps[i].Lit? ==> '{' !in ps[i].text
  }

  /** The text of the pieces, with the keys in `filled` showing the lead's
      value and the others their placeholder. */
  function Render(ps: seq<Piece>, filled: set<Key>, lead: Lead): string
    decreases |ps|
  {
    if ps == [] then ""
    else
      var head := match ps[0]
        case Lit(t) => t
        case Hole(k) => if k in filled then Value(lead, k) else Placeholder(k);
      head + Render(ps[1..], filled, lead)
  }

  /** No value the lead supplies holds a `{`. */
  predicate PlainValues(lead: Lead) {
    forall k :: '{' !in Value(lead, k)
  }

  /** One pass fills exactly the holes of its key. */
  lemma {:induction false} ReplaceFillsHoles(ps: seq<Piece>, filled: set<Key>, k: Key, lead: Lead)
    requires WellFormed(ps) && PlainValues(lead) && k !in filled
    ensures ReplaceAll(Render(ps, filled, lead), Placeholder(k), Value(lead, k)) == Render(ps, filled + {k}, lead)
    decreases |ps|
  {
    if ps != [] {
      var p := Placeholder(k);
      var rest := Render(ps[1..], filled, lead);
      assert WellFormed(ps[1..]) by {
        assert forall i :: 0 <= i < |ps| - 1 ==> ps[1..][i] == ps[i + 1];
      }
      ReplaceFillsHoles(ps[1..], filled, k, lead);
      match ps[0]
      case Lit(t) =>
        BracelessInert(t, p);
        ReplaceAfterInert(t, rest, p, Value(lead, k));
      case Hole(j) =>
        if j == k {
          var s := p + rest;
          assert s[..|p|] == p;
          assert s[|p|..] == rest;
        } else if j in filled {
          BracelessInert(Value(lead, j), p);
          ReplaceAfterInert(Value(lead, j), rest, p, Value(lead, k));
        } else {
          PlaceholdersInert(j, k);
          ReplaceAfterInert(Placeholder(j), rest, p, Value(lead, k));
        }
    }
  }

  /** Filling a well-formed template puts each value in place of each of
      its placeholders, provided the values hold no `{`. */
  lemma FillRenders(ps: seq<Piece>, lead: Lead)
    requires WellFormed(ps) && PlainValues(lead)
    ensures Fill(Render(ps, {}, lead), lead) == Render(ps, {NameKey, AddressKey, ContactPersonKey}, lead)
  {
    ReplaceFillsHoles(ps, {}, NameKey, lead);
    ReplaceFillsHoles(ps, {NameKey}, AddressKey, lead);
    ReplaceFillsHoles(ps, {NameKey, AddressKey}, ContactPersonKey, lead);
    assert {} + {NameKey} == {NameKey};
    assert {NameKey} + {AddressKey} == {NameKey, AddressKey};
    assert {NameKey, AddressKey} + {ContactPersonKey} == {NameKey, AddressKey, ContactPersonKey};
    assert FillFirst(Render(ps, {}, lead), lead, 1) == Render(ps, {NameKey}, lead);
    assert FillFirst(Render(ps, {}, lead), lead, 2) == Render(ps, {NameKey, AddressKey}, lead);
  }

  /** A fully filled well-formed template holds no `{`, hence no placeholder. */
  lemma {:induction false} FilledHasNoBrace(ps: seq<Piece>, lead: Lead)
    requires WellFormed(ps) && PlainValues(lead)
    ensures '{' !in Render(ps, {NameKey, AddressKey, ContactPersonKey}, lead)
    decreases |ps|
  {
    if ps != [] {
      assert WellFormed(ps[1..]) by {
        assert forall i :: 0 <= i < |ps| - 1 ==> ps[1..][i] == ps[i + 1];
      }
      FilledHasNoBrace(ps[1..], lead);
    }
  }

  lemma FillLeavesNoPlaceholder(ps: seq<Piece>, lead: Lead, k: Key)
    requires WellFormed(ps) && PlainValues(lead)
    ensures !Contains(Fill(Render(ps, {}, lead), lead), Placeholder(k))
  {
    FillRenders(ps, lead);
    FilledHasNoBrace(ps, lead);
    ContainsOnlyOwnChars(Render(ps, {NameKey, AddressKey, ContactPersonKey}, lead), Placeholder(k), '{');
  }

  /** The pass for `{{name}}` over `{{na{{name}}me}}` with an empty name. */
  lemma EmptyNameRejoins(s: string, p: string)
    requires p == "{{name}}" && s == "{{na" + p + "me}}"
    ensures ReplaceAll(s, p, "") == p
  {
    var tail := "me}}";
    assert ReplaceAll(p + tail, p, "") == tail by {
      assert (p + tail)[..|p|] == p && (p + tail)[|p|..] == tail;
    }
    assert ReplaceAll(s[2..], p, "") == "na" + tail by {
      assert s[2..] == "na" + (p + tail);
      ReplaceAfterInert("na", p + tail, p, "");
    }
    assert ReplaceAll(s[1..], p, "") == "{na" + tail by {
      assert s[1..][..|p|][1] != p[1];
      assert s[1..][1..] == s[2..];
    }
    assert s[..|p|][4] != p[4];
  }

  /** `{{name}}` holds neither of the other placeholders. */
  lemma NameHoldsNoOther(p: string)
    requires p == Placeholder(NameKey)
    ensures !Contains(p, Placeholder(AddressKey)) && !Contains(p, Placeholder(ContactPersonKey))
  {
    var a := Placeholder(AddressKey);
    var c := Placeholder(ContactPersonKey);
    assert 'd' !in p && a[3] == 'd';
    ContainsOnlyOwnChars(p, a, 'd');
    assert 'c' !in p && c[2] == 'c';
    ContainsOnlyOwnChars(p, c, 'c');
  }

  /** Filling is the three passes one after the other. */
  lemma FillByPasses(lead: Lead, s: string, t1: string, t2: string, t3: string)
    requires ReplaceAll(s, Placeholder(NameKey), Value(lead, NameKey)) == t1
    requires ReplaceAll(t1, Placeholder(AddressKey), Value(lead, AddressKey)) == t2
    requires ReplaceAll(t2, Placeholder(ContactPersonKey), Value(lead, ContactPersonKey)) == t3
    ensures Fill(s, lead) == t3
  {
    assert FillFirst(s, lead, 1) == t1;
    assert FillFirst(s, lead, 2) == t2;
  }

  /** Without the well-formedness a placeholder can survive even though no
      value holds `{`: in `{{na{{name}}me}}`, replacing the inner `{{name}}`
      by an empty name joins the outer text into a new `{{name}}`, and the
      pass for `name` is over. */
  lemma PlaceholderCanSurvive(lead: Lead, s: string)
    requires lead.name == "" && s == "{{na{{name}}me}}"
    ensures Contains(Fill(s, lead), Placeholder(NameKey))
  {
    var p := Placeholder(NameKey);
    assert p == "{{name}}";
    EmptyNameRejoins(s, p);
    NameHoldsNoOther(p);
    ReplaceAllAbsent(p, Placeholder(AddressKey), Value(lead, AddressKey));
    ReplaceAllAbsent(p, Placeholder(ContactPersonKey), Value(lead, ContactPersonKey));
    FillByPasses(lead, s, p, p, p);
    assert IsPrefix(p, p);
  }

  // ---------------------------------------------------------------------------
  // The built-in templates

  const InitialOutreach: EmailTemplate := EmailTemplate(
    "initial-outreach",
    "Initial Outreach",
    "Professional Pool & HOA Services for {{name}}",
    "Hi {{contactPerson}},\n"
      + "\n"
      + "I hope this message finds you well! I'm reaching out on behalf of SAG-Trash, a trusted provider of professional pool and HOA management services.\n"
      + "\n"
      + "We specialize in helping property managers and community associations like {{name}} maintain pristine aquatic facilities while reducing operational costs.\n"
      + "\n"
      + "Our services include:\n"
      + "\U{2022} Routine pool maintenance and chemical balancing\n"
      + "\U{2022} Equipment repairs and upgrades\n"
      + "\U{2022} Compliance and safety inspections\n"
      + "\U{2022} Emergency service availability\n"
      + "\n"
      + "I'd love to schedule a brief call to discuss how we can support {{name}} in {{address}}. Are you available for a quick conversation next week?\n"
      + "\n"
      + "Looking forward to connecting!\n"
      + "\n"
      + "Best regards,\n"
      + "[Your Name]\n"
      + "SAG-Trash Services",
    "Introduce SAG-Trash services to a new prospect")

  const FollowUp: EmailTemplate := EmailTemplate(
    "follow-up",
    "Follow-Up",
    "Following Up - Pool Services for {{name}}",
    "Hi {{contactPerson}},\n"
      + "\n"
      + "I hope you had a chance to see my previous message about SAG-Trash services for {{name}}.\n"
      + "\n"
      + "I wanted to reach out again as we often have availability in your area at {{address}}. Given the seasonal demand for pool services, now is a great time to discuss partnership opportunities.\n"
      + "\n"
      + "If you're interested in learning more about how we can support your property's aquatic facilities, I'd be happy to:\n"
      + "\U{2022} Provide a complimentary consultation\n"
      + "\U{2022} Share case studies from similar properties\n"
      + "\U{2022} Discuss our flexible service packages\n"
      + "\n"
      + "Feel free to reply to this email or call at your convenience.\n"
      + "\n"
      + "Best regards,\n"
      + "[Your Name]\n"
      + "SAG-Trash Services",
    "Check in after initial contact")

  const SeasonalReminder: EmailTemplate := EmailTemplate(
    "seasonal-reminder",
    "Seasonal Reminder",
    "Prepare {{name}} for the Season - Pool Maintenance Services",
    "Hi {{contactPerson}},\n"
      + "\n"
      + "As we head into the busy season, {{name}} at {{address}} should ensure its pool facilities are in top condition.\n"
      + "\n"
      + "SAG-Trash specializes in seasonal pool preparations including:\n"
      + "\U{2022} Deep cleaning and inspection\n"
      + "\U{2022} Equipment testing and maintenance\n"
      + "\U{2022} Chemical treatment and balancing\n"
      + "\U{2022} Safety compliance verification\n"
      + "\n"
      + "Our team can typically schedule seasonal services within 48 hours of your request.\n"
      + "\n"
      + "Would {{name}} be interested in our seasonal maintenance package? I'm happy to provide pricing and availability details.\n"
      + "\n"
      + "Thank you,\n"
      + "[Your Name]\n"
      + "SAG-Trash Services",
    "Seasonal maintenance offer")

  /** `EMAIL_TEMPLATES`. */
  const BuiltIn: seq<EmailTemplate> := [InitialOutreach, FollowUp, SeasonalReminder]

  /** `find`: the first template with the id, if any. */
  function Find(ts: seq<EmailTemplate>, id: string): (r: Option<EmailTemplate>)
    ensures r.Some? ==> r.value in ts && r.value.id == id
    ensures r.None? <==> forall t :: t in ts ==> t.id != id
    ensures r.Some? ==> exists i :: 0 <= i < |ts| && ts[i] == r.value
                          && forall j :: 0 <= j < i ==> ts[j].id != id
    decreases |ts|
  {
    if ts == [] then None
    else if ts[0].id == id then Some(ts[0])
    else Find(ts[1..], id)
  }

  /** With distinct ids, finding an id yields the one template that has it. */
  lemma {:induction false} FindUnique(ts: seq<EmailTemplate>, i: int)
    requires 0 <= i < |ts|
    requires forall a, b :: 0 <= a < b < |ts| ==> ts[a].id != ts[b].id
    ensures Find(ts, ts[i].id) == Some(ts[i])
    decreases |ts|
  {
    if i > 0 {
      assert ts[0].id != ts[i].id;
      FindUnique(ts[1..], i - 1);
    }
  }

  /** `getTemplate`: `find` on the built-in list. */
  function GetTemplate(id: string): Option<EmailTemplate> {
    Find(BuiltIn, id)
  }

  /** The built-in ids are distinct. */
  lemma BuiltInDistinct()
    ensures forall a, b :: 0 <= a < b < |BuiltIn| ==> BuiltIn[a].id != BuiltIn[b].id
  {
    assert InitialOutreach.id[0] == 'i' && FollowUp.id[0] == 'f' && SeasonalReminder.id[0] == 's';
  }

  /** Each built-in id retrieves its own template. */
  lemma BuiltInIds()
    ensures GetTemplate(InitialOutreach.id) == Some(InitialOutreach)
    ensures GetTemplate(FollowUp.id) == Some(FollowUp)
    ensures GetTemplate(SeasonalReminder.id) == Some(SeasonalReminder)
  {
    BuiltInDistinct();
    FindUnique(BuiltIn, 0);
    FindUnique(BuiltIn, 1);
    FindUnique(BuiltIn, 2);
  }

  /** Any other id finds nothing. */
  lemma UnknownId(id: string)
    requires id != InitialOutreach.id && id != FollowUp.id && id != SeasonalReminder.id
    ensures GetTemplate(id) == None
  {
  }
}
