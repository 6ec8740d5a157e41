/**
  The clinic's static knowledge base: a fixed record of clinic facts, a canned
  answer per FAQ category, and a first-match keyword scan that maps a question
  to a category. Everything here is a pure function of its arguments.
 */
module KnowledgeService {
  import opened Wrappers
  import opened Text

  /** The fields of `clinic_info`. */
  datatype ClinicRecord = ClinicRecord(
    location: string, hours: string, service: string, duration: string,
    price: string, contactEmail: string, contactPhone: string,
    staff: string, description: string)

  /** The clinic's facts as the service is constructed with them. */
  const Clinic := ClinicRecord(
    "123 Main Street, Dublin, Ireland",
    "Monday-Friday, 9:00 AM - 5:00 PM",
    "Dental checkups",
    "30 minutes",
    "€60",
    "info@acmedental.ie",
    "+353 1 234 5678",
    "One experienced dentist",
    "Comprehensive oral examinations")

  /** The FAQ categories that have a canned answer. */
  datatype Category =
    | Pricing | Services | Duration | WhatToBring | Arrival | LateArrival
    | CancellationPolicy | Payment | Insurance | Discounts | Emergency | WalkIns
    | Dentist | Account | Confirmation | Privacy | XRay | Included
    | BookingOthers | NoShow | Receipt | FollowUp

  /** The category reported when no keyword matches. */
  const GeneralCategory := "general"

  /** The `source` field of every search reply. */
  const KnowledgeSource := "knowledge_base"

  /** The key under which a category is reported. */
  function CategoryName(c: Category): (r: string)
    ensures r != GeneralCategory
  {
    match c
    case Pricing => "pricing"
    case Services => "services"
    case Duration => "duration"
    case WhatToBring => "what_to_bring"
    case Arrival => "arrival"
    case LateArrival => "late_arrival"
    case CancellationPolicy => "cancellation_policy"
    case Payment => "payment"
    case Insurance => "insurance"
    case Discounts => "discounts"
    case Emergency => "emergency"
    case WalkIns => "walk_ins"
    case Dentist => "dentist"
    case Account => "account"
    case Confirmation => "confirmation"
    case Privacy => "privacy"
    case XRay => "x_ray"
    case Included => "included"
    case BookingOthers => "booking_others"
    case NoShow => "no_show"
    case Receipt => "receipt"
    case FollowUp => "follow_up"
  }

  /**
    The canned answer of each category. The handler table is keyed by the
    same names as the keyword table, so every matched category has one.
   */
  function Answer(c: Category): string {
    match c
    case Pricing =>
      "€60 standard checkup. " + "Student (ID required): €50. Senior 65+: €50. "
      + "Cannot combine discounts. No deposit required to book."
    case Services =>
      "Acme Dental currently offers routine dental checkups only. "
      + "Check-up includes oral examination and general health assessment."
    case Duration => "Each checkup is 30 minutes."
    case WhatToBring =>
      "Bring: valid photo ID, medical information (if applicable), "
      + "insurance details (if you have them)."
    case Arrival => "Arrive 5-10 minutes early to settle in."
    case LateArrival =>
      "If running late, message us ASAP. We'll try to accommodate but may need to "
      + "reschedule if we can't complete the 30-minute checkup."
    case CancellationPolicy =>
      "Free cancellation 24+ hours before. Less than 24hrs: €20 late cancellation fee. "
      + "No-show: €20 fee."
    case Payment =>
      "Payment options: card (in-clinic), contactless, or cash (exact amount preferred). "
      + "No deposit required to book."
    case Insurance =>
      "We provide receipts for insurance claims. We don't process claims directly - "
      + "submit receipt to your insurance provider yourself."
    case Discounts =>
      "Student discount (valid ID required): €50. Senior 65+ discount: €50. "
      + "Discounts cannot be combined."
    case Emergency =>
      "We don't offer emergency treatment. For severe pain, swelling, or bleeding, "
      + "contact emergency dental services in your area."
    case WalkIns =>
      "No walk-ins accepted. All appointments must be booked in advance through this assistant."
    case Dentist =>
      "Acme Dental has one dentist who handles all checkup appointments. "
      + "Every booking is automatically with them."
    case Account =>
      "No account required to book. We only need your full name and email address."
    case Confirmation =>
      "Check your spam/junk folder first. If still not there, tell me "
      + "'I didn't get my confirmation email' and I'll help verify your booking details."
    case Privacy =>
      "We only collect minimum details needed (name + email) and use them solely "
      + "for scheduling and confirmations. Your information is secure."
    case XRay =>
      "X-rays are NOT included in the €60 checkup. If X-rays are needed, "
      + "the dentist will explain next steps and options."
    case Included =>
      "Checkup includes: full oral examination, gum health check, concern review, "
      + "recommendations. Duration: 30 minutes. X-rays NOT included - "
      + "dentist will explain if needed."
    case BookingOthers =>
      "Yes, you can book for someone else. Just provide their full name and "
      + "email address when asked."
    case NoShow =>
      "No-shows may incur €20 fee. You can still rebook through the assistant afterward."
    case Receipt =>
      "Yes, we provide receipts for all appointments. For invoices with specific "
      + "details, ask at reception during your visit."
    case FollowUp =>
      "Yes! Just tell me 'Book another checkup appointment' and I'll show you available times."
  }

  /** The composite answer given when no category matches. */
  const GeneralAnswer :=
    "Acme Dental: €60 checkups (30 min), one dentist. Student/Senior: €50. "
    + "Checkup includes: oral exam, gum check, concern review. X-rays NOT included. "
    + "Free cancel 24hrs+, €20 fee if less. Payment: card/contactless/cash. "
    + "Bring: ID, medical info, insurance details. Arrive 5-10min early. "
    + "No account needed - just name & email."

  /** The keyword table, in the order the scan tries it. */
  const KeywordTable: seq<(Category, seq<string>)> := [
    (Pricing, ["cost", "price", "how much", "fee", "charge"]),
    (Included, ["included", "include", "what do"]),
    (Duration, ["long", "duration", "minutes", "how many"]),
    (WhatToBring, ["bring", "need to bring", "should i bring"]),
    (Arrival, ["early", "arrive", "arrival", "when should i come"]),
    (LateArrival, ["late", "running late", "arrive late"]),
    (CancellationPolicy, ["cancel", "policy", "cancellation fee"]),
    (NoShow, ["no-show", "miss", "didn't attend", "no show"]),
    (Payment, ["pay", "payment", "card", "cash"]),
    (Insurance, ["insurance"]),
    (Receipt, ["receipt", "invoice"]),
    (Discounts, ["discount", "cheaper", "student", "senior"]),
    (Emergency, ["emergency", "urgent", "pain"]),
    (WalkIns, ["walk", "walk-in", "without appointment"]),
    (Dentist, ["dentist", "doctor", "specific dentist"]),
    (Account, ["account", "sign up", "register"]),
    (BookingOthers, ["someone else", "for another", "on behalf"]),
    (Confirmation, ["confirmation", "email", "didn't receive", "not received"]),
    (FollowUp, ["follow-up", "another appointment", "book again"]),
    (XRay, ["x-ray", "xray"]),
    (Privacy, ["privacy", "secure", "personal information", "data"]),
    (Services, ["services", "what do you offer"])
  ]

  /** `any(keyword in q for keyword in keywords)`. */
  predicate Hits(q: string, keywords: seq<string>) {
    exists k :: 0 <= k < |keywords| && Contains(q, keywords[k])
  }

  /** Row `i` of `table` is the first whose keywords occur in `q`. */
  predicate FirstHit(q: string, table: seq<(Category, seq<string>)>, i: int) {
    0 <= i < |table| && Hits(q, table[i].1)
    && forall j :: 0 <= j < i ==> !Hits(q, table[j].1)
  }

  /** No row of `table` has a keyword occurring in `q`. */
  predicate NoRowHits(q: string, table: seq<(Category, seq<string>)>) {
    forall j :: 0 <= j < |table| ==> !Hits(q, table[j].1)
  }

  /** The scan over the table: the index of the first row with a keyword in `q`. */
  function FirstMatch(q: string, table: seq<(Category, seq<string>)>): (r: Option<nat>)
    ensures r.Some? ==> FirstHit(q, table, r.value)
    ensures r.None? <==> NoRowHits(q, table)
  {
    if table == [] then None
    else if Hits(q, table[0].1) then Some(0)
    else match FirstMatch(q, table[1..])
      case None => None
      case Some(i) => Some(i + 1)
  }

  /** What `search_knowledge_base` returns. */
  datatype SearchReply = SearchReply(success: bool, category: string, answer: string, source: string)

  /** `search_knowledge_base`: lower-case the question, take the first matching category. */
  function SearchKnowledgeBase(question: string): (r: SearchReply)
    ensures r.success && r.source == KnowledgeSource
    ensures r.category == GeneralCategory <==> NoRowHits(Lower(question), KeywordTable)
    ensures r.category == GeneralCategory ==> r.answer == GeneralAnswer
    ensures r.category != GeneralCategory ==>
      exists i :: FirstHit(Lower(question), KeywordTable, i)
        && r.category == CategoryName(KeywordTable[i].0)
        && r.answer == Answer(KeywordTable[i].0)
  {
    match FirstMatch(Lower(question), KeywordTable)
    case Some(i) =>
      var c := KeywordTable[i].0;
      SearchReply(true, CategoryName(c), Answer(c), KnowledgeSource)
    case None =>
      SearchReply(true, GeneralCategory, GeneralAnswer, KnowledgeSource)
  }

  /** What `get_contact_info` returns. */
  datatype Contact = Contact(email: string, phone: string, location: string)

  /** `get_contact_info`: the contact fields of the clinic record. */
  function GetContactInfo(): (r: Contact)
    ensures r.email == Clinic.contactEmail && r.phone == Clinic.contactPhone
    ensures r.location == Clinic.location
  {
    Contact(Clinic.contactEmail, Clinic.contactPhone, Clinic.location)
  }

  /** What `get_clinic_info` returns. */
  datatype ClinicReply = ClinicReply(success: bool, clinic: ClinicRecord, formatted: string)

  /** The lines of the markdown summary `get_clinic_info` renders from a clinic record. */
  function ClinicLines(info: ClinicRecord): seq<string> {
    [ "**Acme Dental Clinic Information:**",
      "- Location: " + info.location,
      "- Hours: " + info.hours,
      "- Services: " + info.service + " (" + info.duration + ", " + info.price + ")",
      "- Contact: " + info.contactEmail + " | " + info.contactPhone,
      "- Staff: " + info.staff,
      "- Description: " + info.description ]
  }

  /** `sep.join(lines)`. */
  function Join(lines: seq<string>, sep: string): string {
    if lines == [] then ""
    else if |lines| == 1 then lines[0]
    else lines[0] + sep + Join(lines[1..], sep)
  }

  /** The summary text: the lines joined by newlines. */
  function FormatClinic(info: ClinicRecord): string {
    Join(ClinicLines(info), "\n")
  }

  /** `get_clinic_info`: the record and its rendering. */
  function GetClinicInfo(): (r: ClinicReply)
    ensures r.success && r.clinic == Clinic
    ensures Contains(r.formatted, Clinic.location)
  {
    FormattedNamesLocation(Clinic);
    ClinicReply(true, Clinic, FormatClinic(Clinic))
  }

  lemma ContainsItself(n: string)
    ensures Contains(n, n)
  {
    assert n[..|n|] == n;
  }

  lemma ContainsInLeft(a: string, b: string, n: string)
    requires Contains(a, n)
    ensures Contains(a + b, n)
  {
    ContainsIffOccurs(a, n);
    var i :| OccursAt(a, n, i);
    assert (a + b)[i..i + |n|] == a[i..i + |n|];
    assert OccursAt(a + b, n, i);
    ContainsIffOccurs(a + b, n);
  }

  lemma ContainsInRight(a: string, b: string, n: string)
    requires Contains(b, n)
    ensures Contains(a + b, n)
  {
    ContainsIffOccurs(b, n);
    var i :| OccursAt(b, n, i);
    assert (a + b)[|a| + i..|a| + i + |n|] == b[i..i + |n|];
    assert OccursAt(a + b, n, |a| + i);
    ContainsIffOccurs(a + b, n);
  }

  /** Every line occurs in the joined text. */
  lemma {:induction false} JoinContainsLine(lines: seq<string>, sep: string, i: nat)
    requires i < |lines|
    ensures Contains(Join(lines, sep), lines[i])
    decreases |lines|
  {
    if |lines| == 1 {
      ContainsItself(lines[0]);
    } else if i == 0 {
      ContainsItself(lines[0]);
      ContainsInLeft(lines[0], sep, lines[0]);
      ContainsInLeft(lines[0] + sep, Join(lines[1..], sep), lines[0]);
    } else {
      JoinContainsLine(lines[1..], sep, i - 1);
      ContainsInRight(lines[0] + sep, Join(lines[1..], sep), lines[i]);
    }
  }

  /** The rendering of any clinic record shows its location and its contact details. */
  lemma FormattedNamesLocation(info: ClinicRecord)
    ensures Contains(FormatClinic(info), info.location)
    ensures Contains(FormatClinic(info), info.contactEmail)
    ensures Contains(FormatClinic(info), info.contactPhone)
  {
    var lines := ClinicLines(info);
    var f := FormatClinic(info);
    JoinContainsLine(lines, "\n", 1);
    ContainsItself(info.location);
    ContainsInRight("- Location: ", info.location, info.location);
    JoinContainsLine(lines, "\n", 4);
    ContainsItself(info.contactEmail);
    ContainsInRight("- Contact: ", info.contactEmail, info.contactEmail);
    ContainsInLeft("- Contact: " + info.contactEmail, " | ", info.contactEmail);
    ContainsInLeft("- Contact: " + info.contactEmail + " | ", info.contactPhone, info.contactEmail);
    ContainsItself(info.contactPhone);
    ContainsInRight("- Contact: " + info.contactEmail + " | ", info.contactPhone, info.contactPhone);
    ContainsTransitive(f, lines[1], info.location);
    ContainsTransitive(f, lines[4], info.contactEmail);
    ContainsTransitive(f, lines[4], info.contactPhone);
  }

  /** A text containing `m` contains everything `m` contains. */
  lemma ContainsTransitive(a: string, m: string, n: string)
    requires Contains(a, m) && Contains(m, n)
    ensures Contains(a, n)
  {
    ContainsIffOccurs(a, m);
    ContainsIffOccurs(m, n);
    var i :| OccursAt(a, m, i);
    var j :| OccursAt(m, n, j);
    forall k | 0 <= k < |n|
      ensures a[i + j + k] == n[k]
    {
      assert n[k] == m[j + k] == a[i + j + k];
    }
    assert a[i + j..i + j + |n|] == n;
    assert OccursAt(a, n, i + j);
    ContainsIffOccurs(a, n);
  }

  /** ASCII lower-casing is idempotent. */
  lemma LowerIdempotent(s: string)
    ensures Lower(Lower(s)) == Lower(s)
  {
    var l := Lower(s);
    forall i | 0 <= i < |s|
      ensures Lower(l)[i] == l[i]
    {
      assert l[i] == LowerChar(s[i]);
    }
  }

  /** The lookup ignores letter case: questions equal up to case get the same reply. */
  lemma SearchIgnoresCase(q1: string, q2: string)
    requires Lower(q1) == Lower(q2)
    ensures SearchKnowledgeBase(q1) == SearchKnowledgeBase(q2)
  {
  }

  /** In particular a question and its lower-cased form get the same reply. */
  lemma SearchOfLowered(q: string)
    ensures SearchKnowledgeBase(Lower(q)) == SearchKnowledgeBase(q)
  {
    LowerIdempotent(q);
    SearchIgnoresCase(Lower(q), q);
  }

  /** The row of the keyword table that holds a category. */
  function RowOf(c: Category): (i: nat)
    ensures i < |KeywordTable| && KeywordTable[i].0 == c
  {
    match c
    case Pricing => 0
    case Included => 1
    case Duration => 2
    case WhatToBring => 3
    case Arrival => 4
    case LateArrival => 5
    case CancellationPolicy => 6
    case NoShow => 7
    case Payment => 8
    case Insurance => 9
    case Receipt => 10
    case Discounts => 11
    case Emergency => 12
    case WalkIns => 13
    case Dentist => 14
    case Account => 15
    case BookingOthers => 16
    case Confirmation => 17
    case FollowUp => 18
    case XRay => 19
    case Privacy => 20
    case Services => 21
  }

  /** Every category sits in exactly one row of the keyword table, so every category can be reported. */
  lemma TableListsEveryCategoryOnce(c: Category)
    ensures exists i :: 0 <= i < |KeywordTable| && KeywordTable[i].0 == c
    ensures forall i :: 0 <= i < |KeywordTable| && KeywordTable[i].0 == c ==> i == RowOf(c)
  {
    assert KeywordTable[RowOf(c)].0 == c;
    RowOfInvertsTable();
  }

  /** RowOf reads the table backwards: the category of row `i` is found at row `i`. */
  lemma RowOfInvertsTable()
    ensures forall i :: 0 <= i < |KeywordTable| ==> RowOf(KeywordTable[i].0) == i
  {
    forall i | 0 <= i < |KeywordTable|
      ensures RowOf(KeywordTable[i].0) == i
    {
    }
  }

  /** A matched row reports that row's category and canned answer, e.g. pricing quotes the clinic's price. */
  lemma PricingQuotesPrice()
    ensures Contains(Answer(Pricing), Clinic.price)
  {
    var head := "€60 standard checkup. ";
    assert head[..3] == Clinic.price;
    assert Answer(Pricing)[..3] == head[..3];
  }

  /** The contact details agree with the clinic record `get_clinic_info` reports. */
  lemma ContactAgreesWithClinic()
    ensures GetContactInfo().email == GetClinicInfo().clinic.contactEmail
    ensures GetContactInfo().phone == GetClinicInfo().clinic.contactPhone
    ensures GetContactInfo().location == GetClinicInfo().clinic.location
    ensures Contains(GetClinicInfo().formatted, GetContactInfo().email)
  {
    FormattedNamesLocation(Clinic);
  }

  /** A text lacking some character of `needle` does not contain it. */
  lemma MissingCharNoMatch(hay: string, needle: string, ch: char)
    requires ch in needle && ch !in hay
    ensures !Contains(hay, needle)
  {
    var k :| 0 <= k < |needle| && needle[k] == ch;
    forall i | 0 <= i && i + |needle| <= |hay|
      ensures !OccursAt(hay, needle, i)
    {
      assert hay[i..i + |needle|][k] == hay[i + k] != needle[k];
    }
    ContainsIffOccurs(hay, needle);
  }

  /** The first row that hits is the row the scan picks. */
  lemma FirstHitUnique(q: string, table: seq<(Category, seq<string>)>, i: int)
    requires FirstHit(q, table, i)
    ensures FirstMatch(q, table) == Some(i)
  {
  }

  /** A question without 'c', 'f' or 'd' hits neither the pricing nor the "included" row. */
  lemma NoPricingNorIncluded(l: string)
    requires 'c' !in l && 'f' !in l && 'd' !in l
    ensures !Hits(l, KeywordTable[0].1) && !Hits(l, KeywordTable[1].1)
  {
    var pricing := KeywordTable[0].1;
    assert pricing == ["cost", "price", "how much", "fee", "charge"];
    forall k | 0 <= k < |pricing|
      ensures !Contains(l, pricing[k])
    {
      if k == 3 {
        assert 'f' in pricing[k];
        MissingCharNoMatch(l, pricing[k], 'f');
      } else {
        assert 'c' in pricing[k];
        MissingCharNoMatch(l, pricing[k], 'c');
      }
    }
    var included := KeywordTable[1].1;
    assert included == ["included", "include", "what do"];
    forall k | 0 <= k < |included|
      ensures !Contains(l, included[k])
    {
      assert 'd' in included[k];
      MissingCharNoMatch(l, included[k], 'd');
    }
  }

  /**
    "How long is the appointment?" is a duration question: neither a pricing
    nor an "included" keyword occurs in it, and "long" does.
   */
  lemma HowLongIsDuration(q: string)
    requires q == "How long is the appointment?"
    ensures SearchKnowledgeBase(q).category == CategoryName(Duration)
    ensures SearchKnowledgeBase(q).answer == Answer(Duration)
  {
    HowLongLetters(q);
    DurationRowFirst(Lower(q));
    SearchOfFirstHit(q, 2);
    DurationIsThirdRow();
  }

  /** The duration row is the third in table order. */
  lemma DurationIsThirdRow()
    ensures KeywordTable[2].0 == Duration
  {
  }

  /** A question without 'c', 'f' or 'd' that holds "long" first hits the duration row. */
  lemma DurationRowFirst(l: string)
    requires 'c' !in l && 'f' !in l && 'd' !in l
    requires OccursAt(l, "long", 4)
    ensures FirstHit(l, KeywordTable, 2)
  {
    NoPricingNorIncluded(l);
    ContainsIffOccurs(l, "long");
    assert KeywordTable[2].1[0] == "long";
  }

  /** The reply names the category and gives the answer of the first row hit. */
  lemma SearchOfFirstHit(q: string, i: int)
    requires FirstHit(Lower(q), KeywordTable, i)
    ensures SearchKnowledgeBase(q).category == CategoryName(KeywordTable[i].0)
    ensures SearchKnowledgeBase(q).answer == Answer(KeywordTable[i].0)
  {
    FirstHitUnique(Lower(q), KeywordTable, i);
  }

  /** The question, cut into short words so that each letter test looks at a few characters only. */
  lemma HowLongWords(q: string)
    requires q == "How long is the appointment?"
    ensures q == "How long" + " is the" + " appoint" + "ment?"
  {
  }

  /** None of the words of the question holds a 'c', 'f' or 'd', in either case. */
  lemma HowLongWordsAvoid(c: char)
    requires c in "cfdCFD"
    ensures c !in "How long" && c !in " is the" && c !in " appoint" && c !in "ment?"
  {
  }

  /** The letters of the lower-cased question: no 'c', 'f' or 'd', and "long" at offset 4. */
  lemma HowLongLetters(q: string)
    requires q == "How long is the appointment?"
    ensures 'c' !in Lower(q) && 'f' !in Lower(q) && 'd' !in Lower(q)
    ensures OccursAt(Lower(q), "long", 4)
  {
    HowLongWords(q);
    HowLongWordsAvoid('c');
    HowLongWordsAvoid('C');
    HowLongWordsAvoid('f');
    HowLongWordsAvoid('F');
    HowLongWordsAvoid('d');
    HowLongWordsAvoid('D');
    LowerAvoids(q, 'c', 'C');
    LowerAvoids(q, 'f', 'F');
    LowerAvoids(q, 'd', 'D');
    var l := Lower(q);
    assert l[4] == 'l' && l[5] == 'o' && l[6] == 'n' && l[7] == 'g';
  }
}
