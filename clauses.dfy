/**
 * `Clauses`: the clause lists the contract prompt is built from. The standard
 * clauses go in as one newline-separated list; each lease context that is on
 * and has a template adds a titled section of bulleted clauses, the sections
 * following the order of the context map under a common heading.
 */
module Clauses {
  import opened Wrappers
  import opened Seqs
  import opened Text

  /** A context template: its section title and its clauses. */
  datatype Template = Template(title: string, clauses: seq<string>)

  /** The 27 clauses every contract must have, in order. */
  const StandardClauses: seq<string> := [
    "1. Preamble (تمهيد) - parties identification with full details",
    "2. Property Description (وصف العقار) - detailed location, size, boundaries, floors",
    "3. Lease Purpose (الغرض من الإيجار) - residential/commercial use",
    "4. Lease Term (مدة الإيجار) - start date, end date, renewal options",
    "5. Rent Amount (بدل الإيجار) - monthly amount, annual amount",
    "6. Payment Terms (شروط الدفع) - due date, payment method, grace period",
    "7. Late Payment Penalties (غرامات التأخير) - late fees, interest",
    "8. Security Deposit (التأمين) - amount, conditions for return, deductions",
    "9. Utilities & Services (المرافق والخدمات) - electricity, water, internet, who pays what",
    "10. Maintenance & Repairs (الصيانة والإصلاح) - landlord vs tenant responsibilities",
    "11. Property Condition (حالة العقار) - delivered condition, inspection report",
    "12. Permitted Use (الاستخدام المسموح) - restrictions on use",
    "13. Property Modifications (التعديلات) - tenant restrictions on alterations",
    "14. Subletting (التأجير من الباطن) - allowed or prohibited",
    "15. Access Rights (حق الدخول) - landlord's right to inspect, notice period",
    "16. Insurance (التأمين) - requirements for property insurance",
    "17. Tenant Obligations (التزامات المستأجر) - multiple specific obligations",
    "18. Landlord Obligations (التزامات المؤجر) - multiple specific obligations",
    "19. Breach & Termination (الإخلال والإنهاء) - conditions, notice periods",
    "20. Early Termination (الإنهاء المبكر) - conditions and penalties",
    "21. Eviction Procedures (إجراءات الإخلاء) - legal process",
    "22. Dispute Resolution (حل النزاعات) - arbitration, jurisdiction, applicable law",
    "23. Force Majeure (القوة القاهرة) - acts of god, war, natural disasters",
    "24. Notices (الإخطارات) - how parties communicate officially",
    "25. Miscellaneous (أحكام عامة) - entire agreement, amendments, severability",
    "26. Governing Law (القانون الحاكم) - Jordanian law",
    "27. Signatures Section (التوقيعات) - parties, witnesses, date"
  ]

  /** The `furnished` template. */
  const Furnished: Template := Template("FURNISHED APARTMENT CLAUSES (5 additional clauses)", [
    "28. Furniture Inventory (جرد الأثاث المفصل) - complete list with conditions",
    "29. Furniture Maintenance & Damage Liability (الصيانة والمسؤولية عن الأضرار)",
    "30. Appliances List & Warranties (الأجهزة الكهربائية والضمانات)",
    "31. Furniture Return Conditions (شروط إعادة الأثاث)",
    "32. Prohibited Furniture Modifications (التعديلات المحظورة على الأثاث)"
  ])

  /** The `commercial` template. */
  const Commercial: Template := Template("COMMERCIAL LEASE CLAUSES (4 additional clauses)", [
    "Business License Requirements (متطلبات الترخيص التجاري)",
    "Permitted Business Activities (الأنشطة التجارية المسموحة)",
    "Signage & Branding Rights (حقوق اللافتات والعلامة التجارية)",
    "Commercial Insurance Requirements (متطلبات التأمين التجاري)"
  ])

  /** The `short_term` template. */
  const ShortTerm: Template := Template("SHORT-TERM LEASE CLAUSES (3 additional clauses)", [
    "Extended Stay Conditions (شروط الإقامة الممتدة)",
    "Daily/Weekly Rate Structure (هيكل الأسعار اليومي/الأسبوعي)",
    "Early Checkout Penalties (غرامات المغادرة المبكرة)"
  ])

  /** The `shared` template. */
  const Shared: Template := Template("SHARED ACCOMMODATION CLAUSES (4 additional clauses)", [
    "Roommate Rights & Responsibilities (حقوق ومسؤوليات الزملاء)",
    "Shared Space Usage Rules (قواعد استخدام المساحات المشتركة)",
    "Individual vs Joint Liability (المسؤولية الفردية مقابل المشتركة)",
    "Roommate Change Procedures (إجراءات تغيير الزملاء)"
  ])

  /** The `with_parking` template. */
  const Parking: Template := Template("PARKING CLAUSES (2 additional clauses)", [
    "Parking Space Assignment (تخصيص موقف السيارات)",
    "Parking Violations & Penalties (مخالفات المواقف والغرامات)"
  ])

  /** The `with_pets` template. */
  const Pet: Template := Template("PET CLAUSES (3 additional clauses)", [
    "Permitted Pet Types & Sizes (أنواع وأحجام الحيوانات المسموحة)",
    "Pet Deposit & Damage Liability (تأمين الحيوانات والمسؤولية عن الأضرار)",
    "Pet Care & Neighbor Considerations (العناية بالحيوانات ومراعاة الجيران)"
  ])

  /** The `with_garden` template. */
  const Garden: Template := Template("GARDEN/YARD CLAUSES (2 additional clauses)", [
    "Garden Maintenance Responsibilities (مسؤوليات صيانة الحديقة)",
    "Landscaping Restrictions (قيود تنسيق الحدائق)"
  ])

  /** The `villa` template. */
  const Villa: Template := Template("VILLA-SPECIFIC CLAUSES (3 additional clauses)", [
    "Pool Maintenance & Safety (صيانة المسبح والسلامة)",
    "External Areas Responsibilities (مسؤوليات المناطق الخارجية)",
    "Staff/Helper Accommodation (إقامة العمالة المساعدة)"
  ])

  /** The `office` template. */
  const Office: Template := Template("OFFICE LEASE CLAUSES (4 additional clauses)", [
    "Working Hours & Access (ساعات العمل والدخول)",
    "Office Equipment & Fixtures (المعدات والتجهيزات المكتبية)",
    "Client/Visitor Policies (سياسات العملاء والزوار)",
    "Data/Internet Infrastructure (البنية التحتية للبيانات والإنترنت)"
  ])

  /** The `shop` template. */
  const Shop: Template := Template("SHOP/RETAIL CLAUSES (4 additional clauses)", [
    "Display Window Rights (حقوق واجهة العرض)",
    "Operating Hours Restrictions (قيود ساعات التشغيل)",
    "Customer Parking Arrangements (ترتيبات مواقف العملاء)",
    "Retail License Compliance (الامتثال لترخيص البيع بالتجزئة)"
  ])

  /** The `warehouse` template. */
  const Warehouse: Template := Template("WAREHOUSE CLAUSES (4 additional clauses)", [
    "Loading/Unloading Facilities (مرافق التحميل والتفريغ)",
    "Storage Material Restrictions (قيود مواد التخزين)",
    "Fire Safety & Security Requirements (متطلبات السلامة من الحرائق والأمن)",
    "Inventory Management Rules (قواعد إدارة المخزون)"
  ])

  /** The `agricultural` template. */
  const Agricultural: Template := Template("AGRICULTURAL LAND CLAUSES (5 additional clauses)", [
    "Permitted Crops/Activities (المحاصيل/الأنشطة المسموحة)",
    "Water Rights & Irrigation (حقوق المياه والري)",
    "Equipment & Machinery Storage (تخزين المعدات والآلات)",
    "Harvest Rights & Distribution (حقوق الحصاد والتوزيع)",
    "Land Improvement Ownership (ملكية تحسينات الأرض)"
  ])

  /** The `tourism` template. */
  const Tourism: Template := Template("TOURISM/VACATION RENTAL CLAUSES (4 additional clauses)", [
    "Tourist Registration Requirements (متطلبات تسجيل السياح)",
    "Cleaning & Housekeeping Services (خدمات التنظيف)",
    "Maximum Occupancy Limits (حد أقصى للإشغال)",
    "Cancellation & Refund Policy (سياسة الإلغاء والاسترداد)"
  ])

  /** The `seasonal` template. */
  const Seasonal: Template := Template("SEASONAL LEASE CLAUSES (3 additional clauses)", [
    "Off-Season Property Access (الوصول للعقار خارج الموسم)",
    "Seasonal Rate Variations (تفاوت الأسعار الموسمية)",
    "Property Winterization/Preparation (تجهيز العقار للمواسم)"
  ])

  /** The `students` template. */
  const Student: Template := Template("STUDENT HOUSING CLAUSES (4 additional clauses)", [
    "Academic Calendar Alignment (التوافق مع التقويم الأكاديمي)",
    "Parent/Guardian Guarantees (ضمانات ولي الأمر)",
    "Study Environment Rules (قواعد بيئة الدراسة)",
    "Summer Break Arrangements (ترتيبات العطلة الصيفية)"
  ])

  /** `CONTEXTUAL_CLAUSE_TEMPLATES`, its entries in table order. */
  const Templates: seq<(string, Template)> := [
    ("furnished", Furnished),
    ("commercial", Commercial),
    ("short_term", ShortTerm),
    ("shared", Shared),
    ("with_parking", Parking),
    ("with_pets", Pet),
    ("with_garden", Garden),
    ("villa", Villa),
    ("office", Office),
    ("shop", Shop),
    ("warehouse", Warehouse),
    ("agricultural", Agricultural),
    ("tourism", Tourism),
    ("seasonal", Seasonal),
    ("students", Student)
  ]

  /** A template table: context keys, each with its template. */
  type Table = seq<(string, Template)>

  /** `CONTEXTUAL_CLAUSE_TEMPLATES.get(key)` */
  function TemplateFor(key: string): Option<Template> {
    LookUp(Templates, key)
  }

  /** The value under the first entry with this key. */
  function LookUp(table: Table, key: string): (r: Option<Template>)
    ensures r.Some? <==> exists i :: 0 <= i < |table| && table[i].0 == key
    ensures r.Some? ==> (key, r.value) in table
  {
    if |table| == 0 then None
    else if table[0].0 == key then Some(table[0].1)
    else
      var r := LookUp(table[1..], key);
      assert forall i :: 1 <= i < |table| ==> table[i] == table[1..][i - 1];
      r
  }

  // ---------------------------------------------------------------------
  // Contextual clauses
  // ---------------------------------------------------------------------

  /** A context entry that selects a template of `table`: it is on and its key has one. */
  predicate Selects(table: Table, e: (string, bool)) {
    e.1 && LookUp(table, e.0).Some?
  }

  /**
   * `[TEMPLATES[ctx] for ctx, is_active in contexts.items() if is_active and ctx in TEMPLATES]`,
   * the context map given as its entries in iteration order.
   */
  function Active(table: Table, contexts: seq<(string, bool)>): seq<Template> {
    if |contexts| == 0 then []
    else
      var head := if Selects(table, contexts[0]) then [LookUp(table, contexts[0].0).value] else [];
      head + Active(table, contexts[1..])
  }

  /** `f"- {c}"` for every clause. */
  function Bullets(clauses: seq<string>): (r: seq<string>)
    ensures |r| == |clauses| && forall i :: 0 <= i < |clauses| ==> r[i] == "- " + clauses[i]
  {
    if |clauses| == 0 then [] else ["- " + clauses[0]] + Bullets(clauses[1..])
  }

  /** The section of one template: a blank line, the bold title, then one bullet line per clause. */
  function Section(t: Template): string {
    "\n**" + t.title + ":**\n" + Join(Bullets(t.clauses), "\n")
  }

  /** The sections of the templates, in order. */
  function SectionList(ts: seq<Template>): (r: seq<string>)
    ensures |r| == |ts|
  {
    if |ts| == 0 then [] else SectionList(ts[..|ts| - 1]) + [Section(ts[|ts| - 1])]
  }

  /** The heading the sections follow. */
  const Header: string := "\n\n**ADDITIONAL CONTEXT-SPECIFIC CLAUSES:**"

  /** What `generate_contextual_clauses` returns, for any template table. */
  function ContextualFrom(table: Table, contexts: seq<(string, bool)>): string {
    var active := Active(table, contexts);
    if |active| == 0 then "" else Header + Concat(SectionList(active))
  }

  /** What `generate_contextual_clauses` returns. */
  function ContextualClauses(contexts: seq<(string, bool)>): string {
    ContextualFrom(Templates, contexts)
  }

  /**
   * `generate_contextual_clauses`: nothing when no template is selected,
   * otherwise the heading followed by the section of every selected template.
   */
  method GenerateContextualClauses(table: Table, contexts: seq<(string, bool)>) returns (r: string)
    ensures r == ContextualFrom(table, contexts)
  {
    var active := Active(table, contexts);
    if |active| == 0 {
      return "";
    }
    var sections: seq<string> := [];
    var i := 0;
    while i < |active|
      invariant 0 <= i <= |active|
      invariant sections == SectionList(active[..i])
    {
      assert active[..i + 1][..i] == active[..i];
      sections := sections + [Section(active[i])];
      i := i + 1;
    }
    assert active[..i] == active;
    r := Header + Concat(sections);
  }

  // ---------------------------------------------------------------------
  // Properties
  // ---------------------------------------------------------------------

  lemma {:induction false} ActiveAppend(table: Table, a: seq<(string, bool)>, b: seq<(string, bool)>)
    ensures Active(table, a + b) == Active(table, a) + Active(table, b)
  {
    if |a| > 0 {
      assert (a + b)[0] == a[0] && (a + b)[1..] == a[1..] + b;
      ActiveAppend(table, a[1..], b);
    } else {
      assert a + b == b;
    }
  }

  lemma {:induction false} ActiveEmpty(table: Table, contexts: seq<(string, bool)>)
    ensures |Active(table, contexts)| == 0 <==> forall i :: 0 <= i < |contexts| ==> !Selects(table, contexts[i])
  {
    if |contexts| > 0 {
      ActiveEmpty(table, contexts[1..]);
      assert forall i :: 1 <= i < |contexts| ==> contexts[i] == contexts[1..][i - 1];
    }
  }

  /** The result is empty exactly when no entry is both on and a template key. */
  lemma ContextualEmptyIff(table: Table, contexts: seq<(string, bool)>)
    ensures ContextualFrom(table, contexts) == "" <==> forall i :: 0 <= i < |contexts| ==> !Selects(table, contexts[i])
  {
    ActiveEmpty(table, contexts);
    assert |Header| > 0;
  }

  /** An entry that is off, or whose key has no template, changes nothing wherever it stands. */
  lemma IgnoresUnselected(table: Table, a: seq<(string, bool)>, e: (string, bool), b: seq<(string, bool)>)
    requires !Selects(table, e)
    ensures ContextualFrom(table, a + [e] + b) == ContextualFrom(table, a + b)
  {
    ActiveAppend(table, a + [e], b);
    ActiveAppend(table, a, [e]);
    ActiveAppend(table, a, b);
    assert [e][1..] == [];
    assert Active(table, [e]) == [];
    assert Active(table, a + [e] + b) == Active(table, a + b);
  }

  lemma {:induction false} SectionListAppend(x: seq<Template>, y: seq<Template>)
    ensures SectionList(x + y) == SectionList(x) + SectionList(y)
    decreases |y|
  {
    if |y| == 0 {
      assert x + y == x;
    } else {
      var front, last := y[..|y| - 1], y[|y| - 1];
      SectionListAppend(x, front);
      var xy := x + y;
      assert xy[..|xy| - 1] == x + front && xy[|xy| - 1] == last;
      AppendAssociates(SectionList(x), SectionList(front), [Section(last)]);
    }
  }

  /**
   * Sections follow the order of the context map: the entries of `b` add
   * their sections after everything the entries of `a` produced.
   */
  lemma SectionsInOrder(table: Table, a: seq<(string, bool)>, b: seq<(string, bool)>)
    requires ContextualFrom(table, a) != ""
    ensures ContextualFrom(table, a + b) == ContextualFrom(table, a) + Concat(SectionList(Active(table, b)))
  {
    ActiveAppend(table, a, b);
    SectionListAppend(Active(table, a), Active(table, b));
    ConcatAppend(SectionList(Active(table, a)), SectionList(Active(table, b)));
  }

  /**
   * A section read line by line: an empty line, the bold title, then
   * `- {clause}` for every clause in order, when no text holds a newline.
   */
  lemma SectionLines(t: Template)
    requires |t.clauses| > 0 && '\n' !in t.title
    requires forall i :: 0 <= i < |t.clauses| ==> '\n' !in t.clauses[i]
    ensures Split(Section(t), '\n') == ["", "**" + t.title + ":**"] + Bullets(t.clauses)
  {
    var lines := ["", "**" + t.title + ":**"] + Bullets(t.clauses);
    JoinAppend(["", "**" + t.title + ":**"], Bullets(t.clauses), "\n");
    assert Join(["", "**" + t.title + ":**"], "\n") == "" + "\n" + ("**" + t.title + ":**");
    assert Join(lines, "\n") == Section(t);
    assert forall i :: 0 <= i < |Bullets(t.clauses)| ==> '\n' !in Bullets(t.clauses)[i] by {
      forall i | 0 <= i < |Bullets(t.clauses)| ensures '\n' !in Bullets(t.clauses)[i] {
        assert Bullets(t.clauses)[i] == "- " + t.clauses[i];
      }
    }
    assert forall i :: 0 <= i < |lines| ==> '\n' !in lines[i] by {
      forall i | 0 <= i < |lines| ensures '\n' !in lines[i] {
        if i >= 2 { assert lines[i] == Bullets(t.clauses)[i - 2]; }
      }
    }
    SplitJoin(lines, '\n');
  }

  // ---------------------------------------------------------------------
  // Standard clauses
  // ---------------------------------------------------------------------

  /** `get_standard_clauses_text`: the standard clauses, one per line. */
  function StandardClausesText(): string {
    Join(StandardClauses, "\n")
  }

  /** There are 27 standard clauses. */
  lemma StandardClausesCount()
    ensures |StandardClauses| == 27
  {
  }

  /** The context keys of the templates. */
  const ContextKeys: seq<string> := ["furnished", "commercial", "short_term", "shared", "with_parking",
    "with_pets", "with_garden", "villa", "office", "shop", "warehouse", "agricultural", "tourism",
    "seasonal", "students"]

  /** The table holds a template for each of the fifteen context keys, in this order. */
  lemma TemplateKeysInOrder()
    ensures |Templates| == |ContextKeys| && forall i :: 0 <= i < |Templates| ==> Templates[i].0 == ContextKeys[i]
  {
  }
}
