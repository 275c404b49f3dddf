/** The screen shown after a pass key is accepted: owner/designer tabs over
    three row lists, a five-box key input, and a payment modal whose percent is
    read out of the chosen due payment's title. */
module AfterPassKey {
  import opened Wrappers
  import opened Text

  datatype Tab = Owner | Designer

  datatype RowItem = RowItem(name: string, code: string, percent: Option<nat>, action: string)

  datatype DuePaymentItem = DuePaymentItem(title: string, code: string, badge: string)

  datatype PayModalData = PayModalData(
    projectName: string,
    projectCode: string,
    subscription: string,
    designerName: string,
    designerCode: string,
    percent: nat,
    amount: string,
    currency: string,
    bankName: string,
    iban: string,
    accountNumber: string,
    swift: string)

  datatype Screen = Screen(
    leftSubsTab: Tab,
    rightOutboxTab: Tab,
    rightLettersTab: Tab,
    subsOwner: seq<RowItem>,
    subsDesigner: seq<RowItem>,
    outboxOwner: seq<RowItem>,
    outboxDesigner: seq<RowItem>,
    lettersOwner: seq<RowItem>,
    lettersDesigner: seq<RowItem>,
    isPayModalOpen: bool,
    payModalData: PayModalData)

  /** The percent used when a title carries none */
  const DefaultPercent: nat := 50

  const InitialPayModal: PayModalData := PayModalData(
    "مدرسة خاصة", "EDU-25-IV-333", "PLN",
    "عبدالرحيم سليمان علي", "ARCH-25-5-EN-121",
    50, "250,000", "LYD",
    "البنك الأهلي", "35235235", "23523523523523523523", "23523523523")

  /** The screen as constructed, over the given row lists: every tab on
      `'owner'` and the modal closed */
  function Create(subsOwner: seq<RowItem>, subsDesigner: seq<RowItem>,
                  outboxOwner: seq<RowItem>, outboxDesigner: seq<RowItem>,
                  lettersOwner: seq<RowItem>, lettersDesigner: seq<RowItem>): (s: Screen)
    ensures !s.isPayModalOpen && s.payModalData == InitialPayModal
    ensures s.leftSubsTab == Owner && s.rightOutboxTab == Owner && s.rightLettersTab == Owner
    ensures SubsList(s) == subsOwner && OutboxList(s) == outboxOwner && LettersList(s) == lettersOwner
    ensures s.subsOwner == subsOwner && s.subsDesigner == subsDesigner
    ensures s.outboxOwner == outboxOwner && s.outboxDesigner == outboxDesigner
    ensures s.lettersOwner == lettersOwner && s.lettersDesigner == lettersDesigner
  {
    Screen(Owner, Owner, Owner, subsOwner, subsDesigner, outboxOwner, outboxDesigner,
           lettersOwner, lettersDesigner, false, InitialPayModal)
  }

  // ---------------------------------------------------------------------------
  // Tabs
  // ---------------------------------------------------------------------------

  function Select(tab: Tab, owner: seq<RowItem>, designer: seq<RowItem>): seq<RowItem> {
    if tab == Owner then owner else designer
  }

  /** The `subsList` getter */
  function SubsList(s: Screen): seq<RowItem> {
    Select(s.leftSubsTab, s.subsOwner, s.subsDesigner)
  }

  /** The `outboxList` getter */
  function OutboxList(s: Screen): seq<RowItem> {
    Select(s.rightOutboxTab, s.outboxOwner, s.outboxDesigner)
  }

  /** The `lettersList` getter */
  function LettersList(s: Screen): seq<RowItem> {
    Select(s.rightLettersTab, s.lettersOwner, s.lettersDesigner)
  }

  /** Each list shows the owner rows on the owner tab and the designer rows
      otherwise; when the two differ, it shows the owner rows exactly when its
      tab is the owner tab. Each list depends on its own tab only. */
  lemma SelectorsFollowTabs(s: Screen, left: Tab, outbox: Tab, letters: Tab)
    ensures s.leftSubsTab == Owner ==> SubsList(s) == s.subsOwner
    ensures s.leftSubsTab == Designer ==> SubsList(s) == s.subsDesigner
    ensures s.rightOutboxTab == Owner ==> OutboxList(s) == s.outboxOwner
    ensures s.rightOutboxTab == Designer ==> OutboxList(s) == s.outboxDesigner
    ensures s.rightLettersTab == Owner ==> LettersList(s) == s.lettersOwner
    ensures s.rightLettersTab == Designer ==> LettersList(s) == s.lettersDesigner
    ensures s.subsOwner != s.subsDesigner ==> (SubsList(s) == s.subsOwner <==> s.leftSubsTab == Owner)
    ensures s.outboxOwner != s.outboxDesigner ==> (OutboxList(s) == s.outboxOwner <==> s.rightOutboxTab == Owner)
    ensures s.lettersOwner != s.lettersDesigner ==> (LettersList(s) == s.lettersOwner <==> s.rightLettersTab == Owner)
    ensures OutboxList(s.(leftSubsTab := left, rightLettersTab := letters)) == OutboxList(s)
    ensures SubsList(s.(rightOutboxTab := outbox, rightLettersTab := letters)) == SubsList(s)
    ensures LettersList(s.(leftSubsTab := left, rightOutboxTab := outbox)) == LettersList(s)
  {
  }

  /** `onKeyInput(event, index)`: the box keeps the first ASCII digit of what
      was typed, or nothing when there is none */
  function OnKeyInput(raw: string): (v: string)
    ensures |v| <= 1 && AllDigits(v)
    ensures v == "" <==> forall i :: 0 <= i < |raw| ==> !IsAsciiDigit(raw[i])
    ensures v != "" ==> exists i :: 0 <= i < |raw| && v == [raw[i]] && forall j :: 0 <= j < i ==> !IsAsciiDigit(raw[j])
  {
    SanitizeDigit(raw)
  }

  // ---------------------------------------------------------------------------
  // The percent in a title: `title.match(/%(\d+)/)`
  // ---------------------------------------------------------------------------

  /** `/%(\d+)/` can start at `i`: a `%` immediately followed by a digit */
  predicate MarkerAt(s: string, i: int) {
    0 <= i && i + 1 < |s| && s[i] == '%' && IsAsciiDigit(s[i + 1])
  }

  /** The leftmost position at or after `from` where the pattern can start */
  function FindMarker(s: string, from: nat): (r: Option<nat>)
    requires from <= |s|
    decreases |s| - from
    ensures r.Some? ==> from <= r.value && MarkerAt(s, r.value)
    ensures r.Some? ==> forall j :: from <= j < r.value ==> !MarkerAt(s, j)
    ensures r.None? ==> forall j :: from <= j < |s| ==> !MarkerAt(s, j)
  {
    if from + 1 >= |s| then None
    else if MarkerAt(s, from) then Some(from)
    else FindMarker(s, from + 1)
  }

  /** The length of the run of ASCII digits starting at `i`: greedy `\d+` */
  function DigitRunLength(s: string, i: nat): (n: nat)
    requires i <= |s|
    decreases |s| - i
    ensures i + n <= |s|
    ensures forall j :: i <= j < i + n ==> IsAsciiDigit(s[j])
    ensures i + n == |s| || !IsAsciiDigit(s[i + n])
  {
    if i < |s| && IsAsciiDigit(s[i]) then 1 + DigitRunLength(s, i + 1) else 0
  }

  /** A run of digits ended by a non-digit or the end of the string is the run
      `DigitRunLength` measures */
  lemma {:induction false} DigitRunIsMaximal(s: string, i: nat, n: nat)
    requires i + n <= |s|
    requires forall j :: i <= j < i + n ==> IsAsciiDigit(s[j])
    requires i + n == |s| || !IsAsciiDigit(s[i + n])
    ensures DigitRunLength(s, i) == n
    decreases n
  {
    if n > 0 {
      assert IsAsciiDigit(s[i]);
      DigitRunIsMaximal(s, i + 1, n - 1);
    }
  }

  /** The captured group of `/%(\d+)/`: the digits after the leftmost `%` that
      is followed by a digit */
  function MatchPercent(title: string): (r: Option<string>)
    ensures r.Some? ==> r.value != "" && AllDigits(r.value)
  {
    match FindMarker(title, 0)
    case None => None
    case Some(i) =>
      var n := DigitRunLength(title, i + 1);
      Some(title[i + 1 .. i + 1 + n])
  }

  /** The percent `openPayModal` reads from a title: the decimal value of the
      maximal digit run after the first `%` that is followed by a digit, or 50
      when there is no such `%` */
  function ParsePercent(title: string): (p: nat)
    ensures (forall i :: 0 <= i < |title| ==> !MarkerAt(title, i)) ==> p == DefaultPercent
    ensures forall i :: 0 <= i < |title| && MarkerAt(title, i) && (forall j :: 0 <= j < i ==> !MarkerAt(title, j)) ==>
              p == ParseDecimal(title[i + 1 .. i + 1 + DigitRunLength(title, i + 1)])
  {
    match MatchPercent(title)
    case None => DefaultPercent
    case Some(digits) => ParseDecimal(digits)
  }

  /** A title that ends its `%`-free prefix with `%` and a printed number,
      followed by anything that does not start with a digit, yields that number */
  lemma PercentOfPrintedTitle(prefix: string, n: nat, suffix: string)
    requires forall i :: 0 <= i < |prefix| ==> prefix[i] != '%'
    requires suffix == [] || !IsAsciiDigit(suffix[0])
    ensures ParsePercent(prefix + "%" + DecimalString(n) + suffix) == n
  {
    var d := DecimalString(n);
    var t := prefix + "%" + d + suffix;
    var i := |prefix|;
    assert t[i] == '%' && t[i + 1] == d[0];
    assert MarkerAt(t, i);
    forall j | 0 <= j < i ensures !MarkerAt(t, j) {
      assert t[j] == prefix[j];
    }
    forall j | i + 1 <= j < i + 1 + |d| ensures IsAsciiDigit(t[j]) {
      assert t[j] == d[j - i - 1];
    }
    if suffix != [] {
      assert t[i + 1 + |d|] == suffix[0];
    }
    DigitRunIsMaximal(t, i + 1, |d|);
    assert t[i + 1 .. i + 1 + |d|] == d;
    ParsePrintRoundTrip(n);
  }

  // ---------------------------------------------------------------------------
  // The payment modal
  // ---------------------------------------------------------------------------

  /** `openPayModal(p)`: the modal opens with the percent read from the title
      and the item's code; no other modal field and nothing else changes */
  function OpenPayModal(s: Screen, p: DuePaymentItem): (r: Screen)
    ensures r.isPayModalOpen
    ensures r.payModalData.percent == ParsePercent(p.title)
    ensures r.payModalData.projectCode == p.code
    ensures r.payModalData.(percent := s.payModalData.percent, projectCode := s.payModalData.projectCode) == s.payModalData
    ensures r.(isPayModalOpen := s.isPayModalOpen, payModalData := s.payModalData) == s
  {
    s.(payModalData := s.payModalData.(percent := ParsePercent(p.title), projectCode := p.code),
       isPayModalOpen := true)
  }

  /** `closePayModal()`: the modal closes and nothing else changes */
  function ClosePayModal(s: Screen): (r: Screen)
    ensures !r.isPayModalOpen
    ensures r.(isPayModalOpen := s.isPayModalOpen) == s
  {
    s.(isPayModalOpen := false)
  }

  /** `confirmPay()`: closes the modal like `closePayModal` */
  function ConfirmPay(s: Screen): (r: Screen)
    ensures !r.isPayModalOpen
    ensures r.(isPayModalOpen := s.isPayModalOpen) == s
  {
    ClosePayModal(s)
  }

  /** Opening the modal twice is opening it for the second item: nothing of
      the first item survives, and reopening for the same item changes nothing */
  lemma LastOpenWins(s: Screen, p: DuePaymentItem, q: DuePaymentItem)
    ensures OpenPayModal(OpenPayModal(s, p), q) == OpenPayModal(s, q)
    ensures OpenPayModal(OpenPayModal(s, p), p) == OpenPayModal(s, p)
  {
  }

  /** Opening then closing, or confirming, leaves the screen as it was except
      for the two fields filled from the item */
  lemma OpenThenCloseRestoresScreen(s: Screen, p: DuePaymentItem)
    requires !s.isPayModalOpen
    ensures ClosePayModal(OpenPayModal(s, p)).(payModalData := s.payModalData) == s
    ensures ConfirmPay(OpenPayModal(s, p)).(payModalData := s.payModalData) == s
  {
  }
}
