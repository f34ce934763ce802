/**
 * `ContractRouter`: the conversation router of the lease assistant and its
 * per-session contract memory. The completion backend is an oracle: every
 * call the router would make is replaced by a reply handed in by the caller
 * (`None` for a failed call), and the classifier's decoded JSON is an input
 * too. The date gates run the date scan of `DateValidator` on whatever the
 * regular expressions find in a text; that finder is a parameter of the
 * client, as is the reference moment the validator fixes when it is built.
 */
module ContractRouter {
  import opened Wrappers
  import opened Seqs
  import opened Text
  import opened Calendar
  import opened DateValidator

  // ---------------------------------------------------------------------
  // Language detection
  // ---------------------------------------------------------------------

  datatype Language = English | Arabic

  /** A code point of the Arabic block, U+0600..U+06FF. */
  predicate InArabicBlock(c: char) {
    '\U{0600}' <= c <= '\U{06FF}'
  }

  /**
   * The letters (categories Lu, Ll, Lt, Lm and Lo) among the code points the
   * assistant handles: ASCII, Latin-1 and the Arabic block, as inclusive
   * ranges.
   */
  const LetterRanges: seq<(char, char)> := [
    ('A', 'Z'), ('a', 'z'), ('\U{00AA}', '\U{00AA}'), ('\U{00B5}', '\U{00B5}'), ('\U{00BA}', '\U{00BA}'),
    ('\U{00C0}', '\U{00D6}'), ('\U{00D8}', '\U{00F6}'), ('\U{00F8}', '\U{00FF}'),
    ('\U{0620}', '\U{064A}'), ('\U{066E}', '\U{066F}'), ('\U{0671}', '\U{06D3}'), ('\U{06D5}', '\U{06D5}'),
    ('\U{06E5}', '\U{06E6}'), ('\U{06EE}', '\U{06EF}'), ('\U{06FA}', '\U{06FC}'), ('\U{06FF}', '\U{06FF}')
  ]

  /** `c` lies in one of the ranges. */
  predicate InRanges(c: char, ranges: seq<(char, char)>) {
    |ranges| > 0 && ((ranges[0].0 <= c <= ranges[0].1) || InRanges(c, ranges[1..]))
  }

  /** `str.isalpha` for one character of those scripts. */
  predicate IsAlpha(c: char) {
    InRanges(c, LetterRanges)
  }

  /** `sum(1 for c in s if p(c))` */
  function CountWhere(s: string, p: char -> bool): (n: nat)
    ensures n <= |s|
  {
    if |s| == 0 then 0 else CountWhere(s[..|s| - 1], p) + (if p(s[|s| - 1]) then 1 else 0)
  }

  /**
   * `_detect_language(text)`: English for an empty text or one without
   * letters; otherwise Arabic exactly when more than 30% of the letter count
   * is made of Arabic-block code points (compared exactly, in integers).
   */
  function DetectLanguage(text: string): Language {
    if |text| == 0 then English
    else
      var arabic := CountWhere(text, InArabicBlock);
      var letters := CountWhere(text, IsAlpha);
      if letters == 0 then English
      else if 10 * arabic > 3 * letters then Arabic
      else English
  }

  lemma {:induction false} CountAppend(s: string, t: string, p: char -> bool)
    ensures CountWhere(s + t, p) == CountWhere(s, p) + CountWhere(t, p)
    decreases |t|
  {
    if |t| == 0 {
      assert s + t == s;
    } else {
      assert (s + t)[..|s + t| - 1] == s + t[..|t| - 1];
      CountAppend(s, t[..|t| - 1], p);
    }
  }

  lemma {:induction false} CountAll(s: string, p: char -> bool)
    requires forall k :: 0 <= k < |s| ==> p(s[k])
    ensures CountWhere(s, p) == |s|
  {
    if |s| > 0 {
      CountAll(s[..|s| - 1], p);
    }
  }

  lemma {:induction false} CountNone(s: string, p: char -> bool)
    requires forall k :: 0 <= k < |s| ==> !p(s[k])
    ensures CountWhere(s, p) == 0
  {
    if |s| > 0 {
      CountNone(s[..|s| - 1], p);
    }
  }

  /** For a positive letter count, the integer test is the ratio test. */
  lemma RatioTest(arabic: nat, letters: nat)
    requires letters > 0
    ensures 10 * arabic > 3 * letters <==> (arabic as real) / (letters as real) > 0.3
  {
    var a, t := arabic as real, letters as real;
    var q := a / t;
    assert a == q * t;
    assert 10.0 * a - 3.0 * t == (10.0 * q - 3.0) * t;
    assert (10 * arabic - 3 * letters) as real == 10.0 * a - 3.0 * t;
    ProductSign(10.0 * q - 3.0, t);
  }

  lemma ProductSign(x: real, y: real)
    requires y > 0.0
    ensures x > 0.0 <==> x * y > 0.0
  {
    if x > 0.0 {
      assert x * y > 0.0 * y;
    } else {
      assert x * y <= 0.0 * y;
    }
  }

  /**
   * The detection is the ratio test of the source: Arabic exactly when the
   * text has letters and the Arabic count divided by the letter count exceeds
   * 0.3 (the source divides in floating point; here the quotient is exact).
   */
  lemma DetectLanguageIsRatio(text: string)
    ensures DetectLanguage(text) == Arabic <==>
      var letters := CountWhere(text, IsAlpha);
      letters > 0 && (CountWhere(text, InArabicBlock) as real) / (letters as real) > 0.3
  {
    var letters := CountWhere(text, IsAlpha);
    if letters > 0 {
      RatioTest(CountWhere(text, InArabicBlock), letters);
    }
  }

  /** A text of Arabic letters only is Arabic. */
  lemma ArabicLettersAreArabic(text: string)
    requires |text| > 0 && forall k :: 0 <= k < |text| ==> IsAlpha(text[k]) && InArabicBlock(text[k])
    ensures DetectLanguage(text) == Arabic
  {
    CountAll(text, IsAlpha);
    CountAll(text, InArabicBlock);
  }

  /** A text without Arabic-block code points is English. */
  lemma NoArabicIsEnglish(text: string)
    requires forall k :: 0 <= k < |text| ==> !InArabicBlock(text[k])
    ensures DetectLanguage(text) == English
  {
    CountNone(text, InArabicBlock);
  }

  // ---------------------------------------------------------------------
  // The intent classifier
  // ---------------------------------------------------------------------

  /**
   * What came back from the classifier call: no response, a reply whose
   * content could not be stripped, cleaned and decoded into a dict with the
   * `action`, `confidence` and `reasoning` keys (with the exception text), or
   * the decoded dict.
   */
  datatype ClassifierReply =
    | NoResponse
    | Undecodable(problem: string)
    | Decoded(action: string, confidence: real, reasoning: string)

  datatype Intent = Intent(action: string, confidence: real, reasoning: string)

  /**
   * `_classify_intent`: the decoded dict when there is one; otherwise action
   * "chat" with confidence 0.0 and the reason.
   */
  function ClassifyIntent(reply: ClassifierReply): (r: Intent)
    ensures reply.Decoded? ==> r == Intent(reply.action, reply.confidence, reply.reasoning)
    ensures !reply.Decoded? ==> r.action == "chat" && r.confidence == 0.0
  {
    match reply
    case NoResponse => Intent("chat", 0.0, "API error")
    case Undecodable(problem) => Intent("chat", 0.0, "Parse error: " + problem)
    case Decoded(action, confidence, reasoning) => Intent(action, confidence, reasoning)
  }

  datatype Route = Create | Edit | Explain | Review | Chat

  /** The branch of `get_chat_response` an action string selects; any other string is chat. */
  function RouteOf(action: string): Route {
    if action == "create" then Create
    else if action == "edit" then Edit
    else if action == "explain" then Explain
    else if action == "review" then Review
    else Chat
  }

  /** The classifier always yields a route, and a failed classification routes to chat. */
  lemma ClassifierFallback(reply: ClassifierReply)
    ensures !reply.Decoded? ==> RouteOf(ClassifyIntent(reply).action) == Chat
    ensures RouteOf(ClassifyIntent(reply).action) == Chat <==>
      ClassifyIntent(reply).action !in {"create", "edit", "explain", "review"}
  {
  }

  // ---------------------------------------------------------------------
  // Replies and texts
  // ---------------------------------------------------------------------

  /** The warning sign that opens every alert (U+26A0 U+FE0F). */
  const AlertSign: string := "\U{26A0}\U{FE0F}"

  /** The Arabic word for "error". */
  const ErrorWord: string := "\U{062E}\U{0637}\U{0623}"

  /** `MIN_CONTRACT_LENGTH` */
  const MinContractLength: nat := 200

  /**
   * The router's test for an error message standing where a contract was
   * expected: it starts with the warning sign or has the word for "error" in
   * its first 50 characters.
   */
  predicate LooksLikeError(s: string) {
    StartsWith(s, AlertSign) || Contains(Prefix(s, 50), ErrorWord)
  }

  /** Every text built on the warning sign looks like an error. */
  lemma AlertLooksLikeError(rest: string)
    ensures LooksLikeError(AlertSign + rest)
  {
    assert (AlertSign + rest)[..|AlertSign|] == AlertSign;
  }

  /** A text of ASCII characters never looks like an error. */
  lemma AsciiIsNoError(s: string)
    requires forall k :: 0 <= k < |s| ==> s[k] < '\U{0080}'
    ensures !LooksLikeError(s)
  {
    if |s| >= |AlertSign| {
      assert s[..|AlertSign|][0] == s[0];
    }
    forall i | 0 <= i <= |Prefix(s, 50)| - |ErrorWord|
      ensures !OccursAt(Prefix(s, 50), ErrorWord, i)
    {
      assert Prefix(s, 50)[i] == s[i];
      if i + |ErrorWord| <= |Prefix(s, 50)| {
        assert Prefix(s, 50)[i..i + |ErrorWord|][0] == s[i];
      }
    }
  }

  /** The language-dependent fixed texts of the router. */
  function Say(lang: Language, english: string, arabic: string): string {
    if lang == Arabic then arabic else english
  }

  /** The fixed notices of `get_chat_response`. */
  datatype Notice =
    | Created | CreateFailed
    | EditNeedsContract | Edited | EditUnclear
    | ExplainNeedsContract | ReviewNeedsContract
    | ChatFailed

  function NoticeText(lang: Language, n: Notice): string {
    match n
    case Created =>
      Say(lang, "Contract created successfully \U{2713}",
          "\U{062A}\U{0645} \U{0625}\U{0646}\U{0634}\U{0627}\U{0621} \U{0627}\U{0644}\U{0639}\U{0642}\U{062F} \U{0628}\U{0646}\U{062C}\U{0627}\U{062D} \U{2713}")
    case CreateFailed =>
      Say(lang, "Error creating contract",
          "\U{062E}\U{0637}\U{0623} \U{0641}\U{064A} \U{0625}\U{0646}\U{0634}\U{0627}\U{0621} \U{0627}\U{0644}\U{0639}\U{0642}\U{062F}")
    case EditNeedsContract =>
      Say(lang, "I need an existing contract to edit. Paste one or ask me to create a new contract.",
          "\U{0623}\U{062D}\U{062A}\U{0627}\U{062C} \U{0639}\U{0642}\U{062F} \U{0645}\U{0648}\U{062C}\U{0648}\U{062F} \U{0644}\U{0623}\U{0639}\U{062F}\U{0644}\U{0647}. \U{0627}\U{0644}\U{0635}\U{0642} \U{0627}\U{0644}\U{0639}\U{0642}\U{062F} \U{0623}\U{0648} \U{0627}\U{0637}\U{0644}\U{0628} \U{0625}\U{0646}\U{0634}\U{0627}\U{0621} \U{0639}\U{0642}\U{062F} \U{062C}\U{062F}\U{064A}\U{062F}.")
    case Edited =>
      Say(lang, "Updated successfully \U{2713}", "\U{062A}\U{0645} \U{0627}\U{0644}\U{062A}\U{0639}\U{062F}\U{064A}\U{0644} \U{0628}\U{0646}\U{062C}\U{0627}\U{062D} \U{2713}")
    case EditUnclear =>
      Say(lang, "Couldn't update. Can you clarify?",
          "\U{0644}\U{0645} \U{0623}\U{062A}\U{0645}\U{0643}\U{0646} \U{0645}\U{0646} \U{0627}\U{0644}\U{062A}\U{0639}\U{062F}\U{064A}\U{0644}. \U{0647}\U{0644} \U{064A}\U{0645}\U{0643}\U{0646}\U{0643} \U{062A}\U{0648}\U{0636}\U{064A}\U{062D} \U{0627}\U{0644}\U{0637}\U{0644}\U{0628}\U{061F}")
    case ExplainNeedsContract =>
      Say(lang, "I need a contract to explain. Paste one or ask me to create a new contract.",
          "\U{0623}\U{062D}\U{062A}\U{0627}\U{062C} \U{0639}\U{0642}\U{062F} \U{0644}\U{0623}\U{0634}\U{0631}\U{062D}\U{0647}. \U{0627}\U{0644}\U{0635}\U{0642} \U{0627}\U{0644}\U{0639}\U{0642}\U{062F} \U{0623}\U{0648} \U{0627}\U{0637}\U{0644}\U{0628} \U{0625}\U{0646}\U{0634}\U{0627}\U{0621} \U{0639}\U{0642}\U{062F} \U{062C}\U{062F}\U{064A}\U{062F}.")
    case ReviewNeedsContract =>
      Say(lang, "I need a contract to review. Paste one or ask me to create a new contract.",
          "\U{0623}\U{062D}\U{062A}\U{0627}\U{062C} \U{0639}\U{0642}\U{062F} \U{0644}\U{0623}\U{0631}\U{0627}\U{062C}\U{0639}\U{0647}. \U{0627}\U{0644}\U{0635}\U{0642} \U{0627}\U{0644}\U{0639}\U{0642}\U{062F} \U{0623}\U{0648} \U{0627}\U{0637}\U{0644}\U{0628} \U{0625}\U{0646}\U{0634}\U{0627}\U{0621} \U{0639}\U{0642}\U{062F} \U{062C}\U{062F}\U{064A}\U{062F}.")
    case ChatFailed =>
      Say(lang, "Sorry, error processing request",
          "\U{0639}\U{0630}\U{0631}\U{0627}\U{064B}\U{060C} \U{062E}\U{0637}\U{0623} \U{0641}\U{064A} \U{0645}\U{0639}\U{0627}\U{0644}\U{062C}\U{0629} \U{0627}\U{0644}\U{0637}\U{0644}\U{0628}")
  }

  /** The third element of the router's reply. */
  datatype Action = Updated | Unchanged | NoContract

  /** A router reply together with the contract memory it leaves behind. */
  datatype Turn = Turn(message: string, contract: Option<string>, action: Action, memory: map<string, string>)

  /**
   * A reply that leaves the contract alone: "unchanged" with the contract
   * when there is one, "none" without.
   */
  function Keep(message: string, contract: Option<string>, memory: map<string, string>): (t: Turn)
    ensures t.memory == memory && t.message == message && t.contract == contract
    ensures t.action == (if contract.Some? then Unchanged else NoContract)
  {
    if contract.Some? then Turn(message, contract, Unchanged, memory) else Turn(message, None, NoContract, memory)
  }

  /** The contract, when it is truthy (present and not empty). */
  function NonEmpty(contract: Option<string>): Option<string> {
    if contract.Some? && contract.value != "" then contract else None
  }

  /**
   * `get_chat_response`'s contract sync: a caller contract that is not blank
   * is written to memory as given, before anything else happens.
   */
  function Synced(memory: map<string, string>, given: Option<string>, sessionId: string): map<string, string> {
    if given.Some? && Strip(given.value) != "" then memory[sessionId := given.value] else memory
  }

  /** The active contract: the stripped caller contract, or else the stored one. */
  function ActiveContract(memory: map<string, string>, given: Option<string>, sessionId: string): Option<string> {
    if given.Some? && Strip(given.value) != "" then Some(Strip(given.value))
    else if sessionId in memory then Some(memory[sessionId])
    else None
  }

  /**
   * The create branch once the generator has answered: an answer that looks
   * like an error is passed on, a non-empty answer becomes the session's
   * contract, an empty one is reported as a failure.
   */
  function CreateTurn(lang: Language, memory: map<string, string>, sessionId: string,
                      active: Option<string>, generated: string): Turn
  {
    if generated != "" && LooksLikeError(generated) then Keep(generated, NonEmpty(active), memory)
    else if generated != "" then
      Turn(NoticeText(lang, Created), Some(generated), Updated, memory[sessionId := generated])
    else Keep(NoticeText(lang, CreateFailed), NonEmpty(active), memory)
  }

  /**
   * The edit branch once the editor has answered: an answer that looks like
   * an error is passed on, a substantive change is stored, anything else asks
   * for clarification; the latter two keep `active`.
   */
  function EditTurn(lang: Language, memory: map<string, string>, sessionId: string,
                    active: string, updated: string): Turn
  {
    if updated != "" && LooksLikeError(updated) then Turn(updated, Some(active), Unchanged, memory)
    else if updated != "" && |Strip(updated)| >= MinContractLength && updated != active then
      Turn(NoticeText(lang, Edited), Some(updated), Updated, memory[sessionId := updated])
    else Turn(NoticeText(lang, EditUnclear), Some(active), Unchanged, memory)
  }

  /** The chat branch's text: the stripped reply or the failure notice. */
  function ChatText(lang: Language, reply: Option<string>): string {
    match reply
    case None => NoticeText(lang, ChatFailed)
    case Some(content) => Strip(content)
  }

  /** What every reply of the router keeps, for any turn `t` built from `memory`. */
  ghost predicate TurnKeeps(t: Turn, memory: map<string, string>, sessionId: string) {
    && (t.action == NoContract ==> t.contract.None?)
    && (t.action != NoContract ==> t.contract.Some?)
    && (t.action == Updated ==> sessionId in t.memory && t.memory[sessionId] == t.contract.value)
    && (t.action != Updated ==> t.memory == memory)
    && (forall s :: s != sessionId ==> (s in t.memory <==> s in memory))
    && (forall s :: s != sessionId && s in memory ==> t.memory[s] == memory[s])
  }

  lemma CreateTurnKeeps(lang: Language, memory: map<string, string>, sessionId: string,
                        active: Option<string>, generated: string)
    ensures var t := CreateTurn(lang, memory, sessionId, active, generated);
      && TurnKeeps(t, memory, sessionId)
      && (t.action == Updated <==> generated != "" && !LooksLikeError(generated))
      && (t.action == Updated ==> t.contract == Some(generated))
      && (t.action != Updated ==> t.contract == NonEmpty(active))
  {
  }

  lemma EditTurnKeeps(lang: Language, memory: map<string, string>, sessionId: string,
                      active: string, updated: string)
    ensures var t := EditTurn(lang, memory, sessionId, active, updated);
      && TurnKeeps(t, memory, sessionId)
      && (t.action == Updated <==>
           updated != "" && !LooksLikeError(updated) && |Strip(updated)| >= MinContractLength && updated != active)
      && (t.action == Updated ==> t.contract == Some(updated))
      && (t.action != Updated ==> t.action == Unchanged && t.contract == Some(active))
  {
  }

  /** The reference moments a date validator can hold. */
  type RealMoment = t: Moment | IsRealMoment(t) witness Moment(Date(2000, 1, 1), 0)

  /** The alert of `_validate_dates_in_text` around the scan's error text. */
  function DateAlert(lang: Language, errors: string): (r: string)
    ensures StartsWith(r, AlertSign)
  {
    var rest := if lang == Arabic then
        " \U{062E}\U{0637}\U{0623} \U{0641}\U{064A} \U{0627}\U{0644}\U{062A}\U{0627}\U{0631}\U{064A}\U{062E}:\n\n" + errors
        + "\n\n\U{0627}\U{0644}\U{0631}\U{062C}\U{0627}\U{0621} \U{062A}\U{0635}\U{062D}\U{064A}\U{062D} \U{0627}\U{0644}\U{062A}\U{0627}\U{0631}\U{064A}\U{062E} \U{0648}\U{0627}\U{0644}\U{0645}\U{062D}\U{0627}\U{0648}\U{0644}\U{0629} \U{0645}\U{0631}\U{0629} \U{0623}\U{062E}\U{0631}\U{0649}."
      else " Date Validation Error:\n\n" + errors + "\n\nPlease correct the date and try again.";
    assert (AlertSign + rest)[..|AlertSign|] == AlertSign;
    AlertSign + rest
  }

  /** The alert generation returns when the generated text's dates fail. */
  function GeneratedAlert(lang: Language, alert: string): (r: string)
    ensures StartsWith(r, AlertSign)
  {
    var rest := if lang == Arabic then
        " \U{0627}\U{0644}\U{0639}\U{0642}\U{062F} \U{0627}\U{0644}\U{0645}\U{064F}\U{0646}\U{0634}\U{0623} \U{064A}\U{062D}\U{062A}\U{0648}\U{064A} \U{0639}\U{0644}\U{0649} \U{062A}\U{0648}\U{0627}\U{0631}\U{064A}\U{062E} \U{063A}\U{064A}\U{0631} \U{0635}\U{062D}\U{064A}\U{062D}\U{0629}:\n\n"
        + alert + "\n\n\U{0627}\U{0644}\U{0631}\U{062C}\U{0627}\U{0621} \U{0627}\U{0644}\U{0645}\U{062D}\U{0627}\U{0648}\U{0644}\U{0629} \U{0645}\U{0631}\U{0629} \U{0623}\U{062E}\U{0631}\U{0649}."
      else " Generated contract contains invalid dates:\n\n" + alert + "\n\nPlease try again.";
    assert (AlertSign + rest)[..|AlertSign|] == AlertSign;
    AlertSign + rest
  }

  /** The alert editing returns when the edited text's dates fail. */
  function EditedAlert(lang: Language, alert: string): (r: string)
    ensures StartsWith(r, AlertSign)
  {
    var rest := if lang == Arabic then
        " \U{0627}\U{0644}\U{062A}\U{0639}\U{062F}\U{064A}\U{0644} \U{0623}\U{0646}\U{062A}\U{062C} \U{062A}\U{0648}\U{0627}\U{0631}\U{064A}\U{062E} \U{063A}\U{064A}\U{0631} \U{0635}\U{062D}\U{064A}\U{062D}\U{0629}:\n\n"
        + alert + "\n\n\U{0627}\U{0644}\U{0639}\U{0642}\U{062F} \U{0627}\U{0644}\U{0623}\U{0635}\U{0644}\U{064A} \U{0645}\U{062D}\U{0641}\U{0648}\U{0638}."
      else " Edit produced invalid dates:\n\n" + alert + "\n\nOriginal contract preserved.";
    assert (AlertSign + rest)[..|AlertSign|] == AlertSign;
    AlertSign + rest
  }

  /** The English failure text of generation. */
  const GenerateFailedEnglish: string := "Sorry, error generating contract."

  /** The Arabic failure text of generation. */
  const GenerateFailedArabic: string :=
    "\U{0639}\U{0630}\U{0631}\U{0627}\U{064B}\U{060C} \U{062D}\U{062F}\U{062B} \U{062E}\U{0637}\U{0623} \U{0641}\U{064A} \U{0625}\U{0646}\U{0634}\U{0627}\U{0621} \U{0627}\U{0644}\U{0639}\U{0642}\U{062F}."

  // ---------------------------------------------------------------------
  // The client
  // ---------------------------------------------------------------------

  class LLMClient {
    /** `_contract_memory`: session id to contract. */
    var memory: map<string, string>
    /** The reference moment of the client's date validator. */
    const now: RealMoment
    /** What the date and range patterns find in a text. */
    const findDates: string -> DateMatches
    /** `extract_and_validate_dates(text, allow_past_start=False)` of the client's validator. */
    const scanDates: string -> ScanResult

    /** The client's scan is the date validator's, fixed at construction. */
    ghost predicate ScansWithValidator() {
      forall text :: scanDates(text) == Scan(now, findDates(text), false)
    }

    constructor (now: RealMoment, findDates: string -> DateMatches)
      ensures memory == map[] && this.now == now && this.findDates == findDates
      ensures ScansWithValidator()
    {
      memory := map[];
      this.now := now;
      this.findDates := findDates;
      this.scanDates := (text: string) => Scan(now, findDates(text), false);
    }

    /** `set_current_contract`: stores the contract under the session, leaving every other session alone. */
    method SetCurrentContract(contract: string, sessionId: string)
      modifies this
      ensures memory == old(memory)[sessionId := contract]
    {
      memory := memory[sessionId := contract];
    }

    /** `get_current_contract`: the stored contract, if the session has one. */
    function GetCurrentContract(sessionId: string): (r: Option<string>)
      reads this
      ensures r.Some? <==> sessionId in memory
      ensures r.Some? ==> r.value == memory[sessionId]
    {
      if sessionId in memory then Some(memory[sessionId]) else None
    }

    /** `clear_contract`: forgets the session's contract; nothing happens when there is none. */
    method ClearContract(sessionId: string)
      modifies this
      ensures memory == old(memory) - {sessionId}
    {
      if sessionId in memory {
        memory := memory - {sessionId};
      }
    }

    /**
     * `_validate_dates_in_text`: no alert when the scan (past starts not
     * allowed) accepts every date and range of the text, otherwise the alert
     * around its error text.
     */
    function DateGate(text: string, lang: Language): (r: Option<string>)
      ensures r.None? <==> scanDates(text).allValid
      ensures r.Some? ==> StartsWith(r.value, AlertSign)
    {
      var scan := scanDates(text);
      if scan.allValid then None else Some(DateAlert(lang, ErrorText(scan.errors)))
    }

    /**
     * The gate lets a text through exactly when every date it holds is valid
     * and every range it holds is a valid lease (past starts refused), and an
     * alert lists the scan's errors.
     */
    lemma DateGateIsScan(text: string, lang: Language)
      requires ScansWithValidator()
      ensures var m := findDates(text);
        DateGate(text, lang).None? <==>
          && (forall i :: 0 <= i < |Concat(m.dateHits)| ==> ValidateDate(Concat(m.dateHits)[i]).Ok?)
          && (forall i :: 0 <= i < |Concat(m.rangeHits)| ==> RangeOk(now, Concat(m.rangeHits)[i], false))
      ensures DateGate(text, lang).Some? ==>
        DateGate(text, lang).value == DateAlert(lang, ErrorText(Scan(now, findDates(text), false).errors))
    {
      ScanValidIff(now, findDates(text), false);
    }

    /**
     * `generate_contract`: the alert when the request's dates fail; otherwise
     * the backend's stripped reply, unless the backend failed or the reply's
     * own dates fail.
     */
    function GenerateContract(userInput: string, reply: Option<string>): string {
      var lang := DetectLanguage(userInput);
      match DateGate(userInput, lang)
      case Some(alert) => alert
      case None =>
        match reply
        case None => Say(lang, GenerateFailedEnglish, GenerateFailedArabic)
        case Some(content) =>
          match DateGate(Strip(content), lang)
          case Some(alert) => GeneratedAlert(lang, alert)
          case None => Strip(content)
    }

    /**
     * `edit_contract`: the alert when the request's dates fail; otherwise the
     * backend's stripped reply, unless the backend failed or the edited text's
     * dates fail. The current contract only shapes the prompt.
     */
    function EditContract(userRequest: string, reply: Option<string>): string {
      var lang := DetectLanguage(userRequest);
      match DateGate(userRequest, lang)
      case Some(alert) => alert
      case None =>
        match reply
        case None =>
          Say(lang, "Sorry, error during edit.",
              "\U{0639}\U{0630}\U{0631}\U{0627}\U{064B}\U{060C} \U{062D}\U{062F}\U{062B} \U{062E}\U{0637}\U{0623} \U{0641}\U{064A} \U{0627}\U{0644}\U{062A}\U{0639}\U{062F}\U{064A}\U{0644}.")
        case Some(content) =>
          match DateGate(Strip(content), lang)
          case Some(alert) => EditedAlert(lang, alert)
          case None => Strip(content)
    }

    /**
     * When the request's own dates fail, generation and editing return that
     * alert whatever the backend would have said: the backend is not asked.
     */
    lemma RequestGateSkipsBackend(userInput: string, reply1: Option<string>, reply2: Option<string>)
      requires DateGate(userInput, DetectLanguage(userInput)).Some?
      ensures GenerateContract(userInput, reply1) == GenerateContract(userInput, reply2)
      ensures EditContract(userInput, reply1) == EditContract(userInput, reply2)
      ensures StartsWith(GenerateContract(userInput, reply1), AlertSign)
      ensures GenerateContract(userInput, reply1) == EditContract(userInput, reply1)
    {
    }

    /**
     * What generation can return: an alert, one of the two failure texts, or
     * the stripped reply whose dates all pass the gate.
     */
    lemma GenerateOutcomes(userInput: string, reply: Option<string>)
      ensures var r := GenerateContract(userInput, reply);
        || StartsWith(r, AlertSign)
        || r == GenerateFailedEnglish
        || r == GenerateFailedArabic
        || (reply.Some? && r == Strip(reply.value) && DateGate(r, DetectLanguage(userInput)).None?)
    {
    }

    /** `review_contract`: the backend's stripped reply, or the failure text in the contract's language. */
    function ReviewContract(contractText: string, reply: Option<string>): string {
      match reply
      case None =>
        Say(DetectLanguage(contractText), "Sorry, error during review.",
            "\U{0639}\U{0630}\U{0631}\U{0627}\U{064B}\U{060C} \U{062D}\U{062F}\U{062B} \U{062E}\U{0637}\U{0623} \U{0641}\U{064A} \U{0627}\U{0644}\U{0645}\U{0631}\U{0627}\U{062C}\U{0639}\U{0629}.")
      case Some(content) => Strip(content)
    }

    /** `explain_clause`: the backend's stripped reply, or the failure text in the query's language. */
    function ExplainClause(userQuery: string, reply: Option<string>): string {
      match reply
      case None =>
        Say(DetectLanguage(userQuery), "Sorry, couldn't explain.",
            "\U{0639}\U{0630}\U{0631}\U{0627}\U{064B}\U{060C} \U{0644}\U{0645} \U{0623}\U{0633}\U{062A}\U{0637}\U{0639} \U{0627}\U{0644}\U{0634}\U{0631}\U{062D}.")
      case Some(content) => Strip(content)
    }

    /**
     * `get_chat_response` as a function of the memory before the call, the
     * caller's input, the classifier's reply and the reply of the one backend
     * call the chosen branch makes.
     */
    function Respond(before: map<string, string>, userInput: string, given: Option<string>, sessionId: string,
                     classifierReply: ClassifierReply, reply: Option<string>): Turn
    {
      var lang := DetectLanguage(userInput);
      var memory := Synced(before, given, sessionId);
      var active := ActiveContract(before, given, sessionId);
      match RouteOf(ClassifyIntent(classifierReply).action)
      case Create => CreateTurn(lang, memory, sessionId, active, GenerateContract(userInput, reply))
      case Edit =>
        if active.None? then Turn(NoticeText(lang, EditNeedsContract), None, NoContract, memory)
        else EditTurn(lang, memory, sessionId, active.value, EditContract(userInput, reply))
      case Explain =>
        if active.None? then Turn(NoticeText(lang, ExplainNeedsContract), None, NoContract, memory)
        else Turn(ExplainClause(userInput, reply), active, Unchanged, memory)
      case Review =>
        if active.None? then Turn(NoticeText(lang, ReviewNeedsContract), None, NoContract, memory)
        else Turn(ReviewContract(active.value, reply), active, Unchanged, memory)
      case Chat => Keep(ChatText(lang, reply), active, memory)
    }

    /** The create branch of `get_chat_response` once the generator has answered. */
    method CreateBranch(lang: Language, sessionId: string, active: Option<string>, generated: string)
      returns (message: string, contract: Option<string>, action: Action)
      modifies this
      ensures Turn(message, contract, action, memory) == CreateTurn(lang, old(memory), sessionId, active, generated)
    {
      if generated != "" && LooksLikeError(generated) {
        if active.Some? && active.value != "" {
          return generated, active, Unchanged;
        }
        return generated, None, NoContract;
      }
      if generated != "" {
        SetCurrentContract(generated, sessionId);
        return NoticeText(lang, Created), Some(generated), Updated;
      }
      if active.Some? && active.value != "" {
        return NoticeText(lang, CreateFailed), active, Unchanged;
      }
      return NoticeText(lang, CreateFailed), None, NoContract;
    }

    /** The edit branch of `get_chat_response` once the editor has answered. */
    method EditBranch(lang: Language, sessionId: string, active: string, updated: string)
      returns (message: string, contract: Option<string>, action: Action)
      modifies this
      ensures Turn(message, contract, action, memory) == EditTurn(lang, old(memory), sessionId, active, updated)
    {
      if updated != "" && LooksLikeError(updated) {
        return updated, Some(active), Unchanged;
      }
      if updated != "" && |Strip(updated)| >= MinContractLength && updated != active {
        SetCurrentContract(updated, sessionId);
        return NoticeText(lang, Edited), Some(updated), Updated;
      }
      return NoticeText(lang, EditUnclear), Some(active), Unchanged;
    }

    /**
     * `get_chat_response`: syncs a caller contract into memory, classifies the
     * request and runs the branch its action selects.
     */
    method GetChatResponse(userInput: string, given: Option<string>, sessionId: string,
                           classifierReply: ClassifierReply, reply: Option<string>)
      returns (message: string, contract: Option<string>, action: Action)
      modifies this
      ensures Turn(message, contract, action, memory) == Respond(old(memory), userInput, given, sessionId, classifierReply, reply)
    {
      var lang := DetectLanguage(userInput);
      if given.Some? && Strip(given.value) != "" {
        SetCurrentContract(given.value, sessionId);
      }
      var active := if given.Some? && Strip(given.value) != "" then Some(Strip(given.value))
                    else GetCurrentContract(sessionId);
      assert active == ActiveContract(old(memory), given, sessionId);
      assert memory == Synced(old(memory), given, sessionId);
      var intent := ClassifyIntent(classifierReply);
      match RouteOf(intent.action)
      case Create =>
        var generated := GenerateContract(userInput, reply);
        message, contract, action := CreateBranch(lang, sessionId, active, generated);
      case Edit =>
        if active.None? {
          return NoticeText(lang, EditNeedsContract), None, NoContract;
        }
        var updated := EditContract(userInput, reply);
        message, contract, action := EditBranch(lang, sessionId, active.value, updated);
      case Explain =>
        if active.None? {
          return NoticeText(lang, ExplainNeedsContract), None, NoContract;
        }
        return ExplainClause(userInput, reply), active, Unchanged;
      case Review =>
        if active.None? {
          return NoticeText(lang, ReviewNeedsContract), None, NoContract;
        }
        return ReviewContract(active.value, reply), active, Unchanged;
      case Chat =>
        var result;
        if reply.None? {
          result := NoticeText(lang, ChatFailed);
        } else {
          result := Strip(reply.value);
        }
        if active.Some? {
          return result, active, Unchanged;
        }
        return result, None, NoContract;
    }

    // -------------------------------------------------------------------
    // What every turn of the router keeps
    // -------------------------------------------------------------------

    /**
     * Every branch: "none" comes with no contract and every other action with
     * one; "updated" stores the returned contract for the session; any other
     * action leaves memory as the sync left it; and no other session's entry
     * is touched.
     */
    lemma TurnInvariants(before: map<string, string>, userInput: string, given: Option<string>, sessionId: string,
                         classifierReply: ClassifierReply, reply: Option<string>)
      ensures TurnKeeps(Respond(before, userInput, given, sessionId, classifierReply, reply),
                        Synced(before, given, sessionId), sessionId)
      ensures forall s :: s != sessionId ==> (s in Synced(before, given, sessionId) <==> s in before)
      ensures forall s :: s != sessionId && s in before ==> Synced(before, given, sessionId)[s] == before[s]
    {
      var lang := DetectLanguage(userInput);
      var memory := Synced(before, given, sessionId);
      var active := ActiveContract(before, given, sessionId);
      match RouteOf(ClassifyIntent(classifierReply).action)
      case Create => CreateTurnKeeps(lang, memory, sessionId, active, GenerateContract(userInput, reply));
      case Edit =>
        if active.Some? {
          EditTurnKeeps(lang, memory, sessionId, active.value, EditContract(userInput, reply));
        }
      case Explain =>
      case Review =>
      case Chat =>
    }

    /** An "updated" turn returns a contract and has stored exactly it for the session. */
    lemma UpdatedIsStored(before: map<string, string>, userInput: string, given: Option<string>, sessionId: string,
                          classifierReply: ClassifierReply, reply: Option<string>)
      ensures var t := Respond(before, userInput, given, sessionId, classifierReply, reply);
        t.action == Updated ==> t.contract.Some? && sessionId in t.memory && t.memory[sessionId] == t.contract.value
    {
      TurnInvariants(before, userInput, given, sessionId, classifierReply, reply);
    }

    /** Explain, review and chat never store anything beyond the initial sync. */
    lemma ReadOnlyRoutes(before: map<string, string>, userInput: string, given: Option<string>, sessionId: string,
                         classifierReply: ClassifierReply, reply: Option<string>)
      requires RouteOf(ClassifyIntent(classifierReply).action) in {Explain, Review, Chat}
      ensures var t := Respond(before, userInput, given, sessionId, classifierReply, reply);
        t.action != Updated && t.memory == Synced(before, given, sessionId)
    {
    }

    /**
     * A caller contract that is not blank is stored as given (unstripped)
     * unless the turn then updates it, while the active contract the branches
     * see is its stripped form.
     */
    lemma CallerContractSynced(before: map<string, string>, userInput: string, given: string, sessionId: string,
                               classifierReply: ClassifierReply, reply: Option<string>)
      requires Strip(given) != ""
      ensures var t := Respond(before, userInput, Some(given), sessionId, classifierReply, reply);
        t.action != Updated ==> sessionId in t.memory && t.memory[sessionId] == given
      ensures ActiveContract(before, Some(given), sessionId) == Some(Strip(given))
    {
      TurnInvariants(before, userInput, Some(given), sessionId, classifierReply, reply);
    }

    /** Without any contract an edit is refused before the backend is asked. */
    lemma EditNeedsContractFirst(before: map<string, string>, userInput: string, given: Option<string>, sessionId: string,
                                 classifierReply: ClassifierReply, reply1: Option<string>, reply2: Option<string>)
      requires RouteOf(ClassifyIntent(classifierReply).action) == Edit
      requires ActiveContract(before, given, sessionId).None?
      ensures Respond(before, userInput, given, sessionId, classifierReply, reply1)
           == Respond(before, userInput, given, sessionId, classifierReply, reply2)
      ensures Respond(before, userInput, given, sessionId, classifierReply, reply1).action == NoContract
    {
    }

    /**
     * An edit is stored only when the result is at least 200 characters once
     * stripped, does not look like an error and differs from the active
     * contract; otherwise the active contract comes back unchanged.
     */
    lemma EditStoresOnlyChanges(before: map<string, string>, userInput: string, given: Option<string>, sessionId: string,
                                classifierReply: ClassifierReply, reply: Option<string>)
      requires RouteOf(ClassifyIntent(classifierReply).action) == Edit
      requires ActiveContract(before, given, sessionId).Some?
      ensures var t := Respond(before, userInput, given, sessionId, classifierReply, reply);
        var active := ActiveContract(before, given, sessionId).value;
        var edited := EditContract(userInput, reply);
        && (t.action == Updated <==>
             edited != "" && !LooksLikeError(edited) && |Strip(edited)| >= MinContractLength && edited != active)
        && (t.action != Updated ==> t.action == Unchanged && t.contract == Some(active) && t.memory == Synced(before, given, sessionId))
    {
      var active := ActiveContract(before, given, sessionId).value;
      EditTurnKeeps(DetectLanguage(userInput), Synced(before, given, sessionId), sessionId, active, EditContract(userInput, reply));
    }

    /**
     * A created contract never looks like an error, and when the request's
     * dates fail the turn keeps the memory as synced.
     */
    lemma CreateStoresNoAlert(before: map<string, string>, userInput: string, given: Option<string>, sessionId: string,
                              classifierReply: ClassifierReply, reply: Option<string>)
      requires RouteOf(ClassifyIntent(classifierReply).action) == Create
      ensures var t := Respond(before, userInput, given, sessionId, classifierReply, reply);
        t.action == Updated ==> t.contract.Some? && !LooksLikeError(t.contract.value)
      ensures DateGate(userInput, DetectLanguage(userInput)).Some? ==>
        var t := Respond(before, userInput, given, sessionId, classifierReply, reply);
        t.action != Updated && t.memory == Synced(before, given, sessionId)
    {
      var lang := DetectLanguage(userInput);
      var generated := GenerateContract(userInput, reply);
      CreateTurnKeeps(lang, Synced(before, given, sessionId), sessionId, ActiveContract(before, given, sessionId), generated);
      var gate := DateGate(userInput, lang);
      if gate.Some? {
        assert generated == gate.value;
        assert StartsWith(generated, AlertSign);
      }
    }

    /**
     * The English failure text of generation passes the router's error test,
     * so when the backend fails on an English request whose dates pass, that
     * text is stored as the session's contract and reported as "updated".
     */
    lemma EnglishFailureIsStored(before: map<string, string>, userInput: string, given: Option<string>, sessionId: string,
                                 classifierReply: ClassifierReply)
      requires RouteOf(ClassifyIntent(classifierReply).action) == Create
      requires DetectLanguage(userInput) == English && DateGate(userInput, English).None?
      ensures var t := Respond(before, userInput, given, sessionId, classifierReply, None);
        t.action == Updated && t.memory[sessionId] == GenerateFailedEnglish
    {
      assert forall k | 0 <= k < |GenerateFailedEnglish| :: GenerateFailedEnglish[k] < '\U{0080}';
      AsciiIsNoError(GenerateFailedEnglish);
      assert GenerateContract(userInput, None) == GenerateFailedEnglish;
      CreateTurnKeeps(English, Synced(before, given, sessionId), sessionId,
                      ActiveContract(before, given, sessionId), GenerateFailedEnglish);
    }
  }
}
