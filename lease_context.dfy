/**
 * `LeaseContext`: keyword detection of lease contexts in a user message. Each
 * context of the pattern table is flagged when one of its keywords occurs as
 * a substring of the lower-cased message; the result lists every context of
 * the table, in table order.
 */
module LeaseContext {
  import opened Seqs
  import opened Text
  import Clauses

  /** A pattern table: context keys, each with its keywords. */
  type Patterns = seq<(string, seq<string>)>

  /** `CONTEXT_PATTERNS`, its entries in table order. */
  const ContextPatterns: Patterns := [
    ("furnished", ["furnished", "مفروش", "مفروشة", "أثاث", "furniture"]),
    ("commercial", ["commercial", "business", "تجاري", "تجارية", "محل", "مكتب"]),
    ("short_term", ["short", "daily", "weekly", "monthly", "قصيرة", "يومي", "أسبوعي", "شهري"]),
    ("shared", ["shared", "roommate", "مشترك", "مشاركة", "زميل سكن"]),
    ("with_parking", ["parking", "garage", "موقف", "جراج", "سيارة"]),
    ("with_pets", ["pet", "dog", "cat", "حيوان", "كلب", "قطة", "حيوانات أليفة"]),
    ("with_garden", ["garden", "yard", "حديقة", "فناء"]),
    ("villa", ["villa", "فيلا"]),
    ("office", ["office", "مكتب"]),
    ("shop", ["shop", "store", "retail", "محل", "متجر"]),
    ("warehouse", ["warehouse", "storage", "مستودع", "مخزن"]),
    ("agricultural", ["agricultural", "farm", "land", "زراعي", "مزرعة", "أرض"]),
    ("tourism", ["tourism", "vacation", "holiday", "سياحي", "إجازة", "عطلة"]),
    ("seasonal", ["seasonal", "summer", "winter", "موسمي", "صيفي", "شتوي"]),
    ("students", ["student", "university", "college", "طالب", "جامعة", "طلاب"])
  ]

  /** `any(word in text for word in words)` */
  function AnyIn(text: string, words: seq<string>): bool {
    if |words| == 0 then false else Contains(text, words[0]) || AnyIn(text, words[1..])
  }

  /** The flags of a table against text that is already lower-cased. */
  function DetectLowered(patterns: Patterns, lowered: string): (r: seq<(string, bool)>)
    ensures |r| == |patterns|
  {
    if |patterns| == 0 then []
    else [(patterns[0].0, AnyIn(lowered, patterns[0].1))] + DetectLowered(patterns[1..], lowered)
  }

  /** The flags of a table against a message: every context, flagged against the lower-cased message. */
  function Detect(patterns: Patterns, text: string): (r: seq<(string, bool)>)
    ensures |r| == |patterns|
  {
    DetectLowered(patterns, Lower(text))
  }

  /** `detect_lease_context` */
  function DetectLeaseContext(text: string): (r: seq<(string, bool)>)
    ensures |r| == 15
  {
    Detect(ContextPatterns, text)
  }

  // ---------------------------------------------------------------------
  // Properties
  // ---------------------------------------------------------------------

  /** `any` holds exactly when one of the words occurs in the text. */
  lemma {:induction false} AnyInIff(text: string, words: seq<string>)
    ensures AnyIn(text, words) <==> exists j :: 0 <= j < |words| && Contains(text, words[j])
  {
    if |words| > 0 {
      AnyInIff(text, words[1..]);
      assert forall j :: 1 <= j < |words| ==> words[j] == words[1..][j - 1];
    }
  }

  lemma {:induction false} DetectLoweredShape(patterns: Patterns, lowered: string)
    ensures |DetectLowered(patterns, lowered)| == |patterns|
    ensures forall i :: 0 <= i < |patterns| ==>
      DetectLowered(patterns, lowered)[i] == (patterns[i].0, AnyIn(lowered, patterns[i].1))
  {
    if |patterns| > 0 {
      DetectLoweredShape(patterns[1..], lowered);
    }
  }

  /**
   * The result lists the contexts of the table in order, and a context is
   * flagged exactly when one of its keywords occurs in the lower-cased text.
   */
  lemma DetectFlags(patterns: Patterns, text: string)
    ensures |Detect(patterns, text)| == |patterns|
    ensures forall i :: 0 <= i < |patterns| ==> Detect(patterns, text)[i].0 == patterns[i].0
    ensures forall i :: 0 <= i < |patterns| ==>
      (Detect(patterns, text)[i].1 <==> exists j :: 0 <= j < |patterns[i].1| && Contains(Lower(text), patterns[i].1[j]))
  {
    DetectLoweredShape(patterns, Lower(text));
    forall i | 0 <= i < |patterns| {
      AnyInIff(Lower(text), patterns[i].1);
    }
  }

  /** The detector reports exactly the fifteen context keys the clause templates have, in their order. */
  lemma DetectedKeys(text: string)
    ensures |DetectLeaseContext(text)| == |Clauses.ContextKeys|
    ensures forall i :: 0 <= i < |Clauses.ContextKeys| ==> DetectLeaseContext(text)[i].0 == Clauses.ContextKeys[i]
  {
    DetectFlags(ContextPatterns, text);
  }

  /** A flag once raised stays raised when text is added before or after the message. */
  lemma DetectMonotone(patterns: Patterns, t: string, text: string, u: string, i: nat)
    requires i < |patterns| && Detect(patterns, text)[i].1
    ensures Detect(patterns, t + text + u)[i].1
  {
    DetectFlags(patterns, text);
    DetectFlags(patterns, t + text + u);
    var j :| 0 <= j < |patterns[i].1| && Contains(Lower(text), patterns[i].1[j]);
    LowerAppend(t + text, u);
    LowerAppend(t, text);
    ContainsMonotone(Lower(text), Lower(t), Lower(u), patterns[i].1[j]);
  }

  /** Lower-casing the message beforehand changes no flag. */
  lemma LoweredMessageSameFlags(patterns: Patterns, text: string)
    ensures Detect(patterns, Lower(text)) == Detect(patterns, text)
  {
    LowerIdempotent(text);
  }

  /** Every character of every keyword of the table lies in `letters`. */
  predicate KeywordsOver(patterns: Patterns, letters: set<char>) {
    forall i, j, k :: 0 <= i < |patterns| && 0 <= j < |patterns[i].1| && 0 <= k < |patterns[i].1[j]| ==>
      patterns[i].1[j][k] in letters
  }

  /** Two texts of one length that agree at every position where either holds one of `letters`. */
  predicate AgreeOn(x: string, y: string, letters: set<char>) {
    |x| == |y| && forall k :: 0 <= k < |x| ==> (x[k] in letters || y[k] in letters) ==> x[k] == y[k]
  }

  lemma ContainsAgree(x: string, y: string, w: string, letters: set<char>)
    requires AgreeOn(x, y, letters) && forall k :: 0 <= k < |w| ==> w[k] in letters
    requires Contains(x, w)
    ensures Contains(y, w)
  {
    var i :| 0 <= i <= |x| - |w| && OccursAt(x, w, i);
    forall k | 0 <= k < |w|
      ensures y[i + k] == w[k]
    {
      assert x[i + k] == x[i..i + |w|][k] == w[k];
    }
    assert y[i..i + |w|] == w;
    assert OccursAt(y, w, i);
  }

  /**
   * Detection sees only the letters of the keywords: two lower-cased texts
   * that agree wherever either holds such a letter raise the same flags.
   */
  lemma DetectSeesOnlyKeywordLetters(patterns: Patterns, x: string, y: string, letters: set<char>)
    requires KeywordsOver(patterns, letters) && AgreeOn(x, y, letters)
    ensures DetectLowered(patterns, x) == DetectLowered(patterns, y)
  {
    DetectLoweredShape(patterns, x);
    DetectLoweredShape(patterns, y);
    forall i | 0 <= i < |patterns|
      ensures AnyIn(x, patterns[i].1) == AnyIn(y, patterns[i].1)
    {
      AnyInIff(x, patterns[i].1);
      AnyInIff(y, patterns[i].1);
      forall j | 0 <= j < |patterns[i].1|
        ensures Contains(x, patterns[i].1[j]) <==> Contains(y, patterns[i].1[j])
      {
        var w := patterns[i].1[j];
        assert forall k :: 0 <= k < |w| ==> w[k] in letters;
        if Contains(x, w) {
          ContainsAgree(x, y, w, letters);
        }
        if Contains(y, w) {
          ContainsAgree(y, x, w, letters);
        }
      }
    }
  }

  /**
   * A keyword written in any case is found: when the message contains a word
   * whose lower-cased form is a keyword of context `i`, that context is flagged.
   */
  lemma KeywordInAnyCase(patterns: Patterns, text: string, w: string, i: nat, j: nat)
    requires i < |patterns| && j < |patterns[i].1| && Lower(w) == patterns[i].1[j]
    requires Contains(text, w)
    ensures Detect(patterns, text)[i].1
  {
    ContainsLower(text, w);
    DetectFlags(patterns, text);
  }

  /** A Latin keyword in capitals is found: "OFFICE" flags the office context. */
  lemma CapitalOfficeFlagged(text: string)
    requires Contains(text, "OFFICE")
    ensures DetectLeaseContext(text)[8] == ("office", true)
  {
    assert Lower("OFFICE") == "office";
    ContainsLower(text, "OFFICE");
    assert ContextPatterns[8].1[0] == "office";
    DetectFlags(ContextPatterns, text);
  }

  /** The Kelvin sign lower-cases to 'k': "PAR\U{212A}ING" flags the parking context. */
  lemma KelvinSignFlagsParking(text: string)
    requires Contains(text, "PAR\U{212A}ING")
    ensures DetectLeaseContext(text)[4] == ("with_parking", true)
  {
    LowerKelvinParking();
    ContainsLower(text, "PAR\U{212A}ING");
    assert ContextPatterns[4].1[0] == "parking";
    DetectFlags(ContextPatterns, text);
  }

  /** Without text nothing is flagged, when no keyword is empty. */
  lemma EmptyFlagsNothingFor(patterns: Patterns)
    requires forall i, j :: 0 <= i < |patterns| && 0 <= j < |patterns[i].1| ==> |patterns[i].1[j]| > 0
    ensures forall i :: 0 <= i < |patterns| ==> !Detect(patterns, "")[i].1
  {
    DetectFlags(patterns, "");
    assert Lower("") == "";
  }

  /** A message with no text flags nothing. */
  lemma EmptyFlagsNothing()
    ensures forall i :: 0 <= i < |DetectLeaseContext("")| ==> !DetectLeaseContext("")[i].1
  {
    KeywordsNonEmpty();
    EmptyFlagsNothingFor(ContextPatterns);
  }

  /** Every keyword of the table has at least one character. */
  lemma KeywordsNonEmpty()
    ensures forall i, j :: 0 <= i < |ContextPatterns| && 0 <= j < |ContextPatterns[i].1| ==> |ContextPatterns[i].1[j]| > 0
  {
  }

  /** "مكتب" (office) is a keyword of two contexts: it flags both commercial and office. */
  lemma OfficeWordFlagsTwo(text: string)
    requires Contains(text, "مكتب")
    ensures DetectLeaseContext(text)[1] == ("commercial", true)
    ensures DetectLeaseContext(text)[8] == ("office", true)
  {
    var w := "مكتب";
    LowerKeepsArabic(w);
    ContainsLower(text, w);
    assert ContextPatterns[1].1[5] == w && ContextPatterns[8].1[1] == w;
    DetectFlags(ContextPatterns, text);
  }

  /** "محل" (shop) is a keyword of two contexts: it flags both commercial and shop. */
  lemma ShopWordFlagsTwo(text: string)
    requires Contains(text, "محل")
    ensures DetectLeaseContext(text)[1] == ("commercial", true)
    ensures DetectLeaseContext(text)[9] == ("shop", true)
  {
    var w := "محل";
    LowerKeepsArabic(w);
    ContainsLower(text, w);
    assert ContextPatterns[1].1[4] == w && ContextPatterns[9].1[3] == w;
    DetectFlags(ContextPatterns, text);
  }
}
