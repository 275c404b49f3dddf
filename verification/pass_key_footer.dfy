/** The pass-key footer: a row of `digits` one-digit boxes whose contents are
    collected into a code and sent for verification under a key type. */
module PassKeyFooter {
  import opened Wrappers
  import opened Text
  import opened Router
  import opened Http

  /** The keys the backend can verify */
  datatype KeyType = GeneralAdmin | AdminTechnicalPortal | FinancialControl {
    /** The `key_type` string sent on the wire */
    function WireName(): string {
      match this
      case GeneralAdmin => "general_admin"
      case AdminTechnicalPortal => "admin_technical_portal"
      case FinancialControl => "financial_control"
    }
  }

  /** No two keys share a wire name, so the backend can tell every key apart */
  lemma WireNamesDistinct(a: KeyType, b: KeyType)
    ensures a.WireName() == b.WireName() <==> a == b
  {
  }

  /** The body of `KeysService.verify`; `keyType` is the `key_type` string */
  datatype VerifyRequest = VerifyRequest(keyType: string, code: string)

  /** The parsed body of a verify response */
  datatype VerifyResponse = VerifyResponse(success: bool, message: Option<string>)

  /** Component state. `codeDigits` is the slot buffer; a JavaScript array hole
      is stored as "", which is how `join('')` renders it. */
  datatype Footer = Footer(
    keyType: KeyType,
    redirectTo: string,
    digits: nat,
    isLoading: bool,
    errorMessage: string,
    codeDigits: seq<string>)

  const DefaultDigits: nat := 4
  const InvalidCodeMessage: string := "الكود غير صحيح."
  const ConnectionMessage: string := "تعذر الاتصال بالسيرفر."

  /** "Please enter <digits> digits." */
  function DigitsMessage(digits: nat): string {
    "من فضلك أدخل " + DecimalString(digits) + " أرقام."
  }

  /** A freshly created footer: the two required inputs as bound, `digits` as
      bound or 4 when the parent leaves it unbound, not loading, no message, no
      slot filled */
  function Create(keyType: KeyType, redirectTo: string, digits: Option<nat>): (f: Footer)
    ensures f.keyType == keyType && f.redirectTo == redirectTo
    ensures digits.Some? ==> f.digits == digits.value
    ensures digits.None? ==> f.digits == DefaultDigits
    ensures !f.isLoading && f.errorMessage == ""
    ensures f.codeDigits == [] && BuildCode(f) == ""
  {
    Footer(keyType, redirectTo, digits.GetOr(DefaultDigits), false, "", [])
  }

  /** The `passKeys` getter: one (empty) entry per box the template renders */
  function PassKeys(f: Footer): (boxes: seq<Option<string>>)
    ensures |boxes| == f.digits
    ensures forall i :: 0 <= i < |boxes| ==> boxes[i].None?
  {
    seq(f.digits, _ => None)
  }

  // ---------------------------------------------------------------------------
  // The slot buffer
  // ---------------------------------------------------------------------------

  /** A slot holds nothing or exactly one ASCII digit */
  predicate IsSlot(v: string) {
    v == "" || (|v| == 1 && IsAsciiDigit(v[0]))
  }

  predicate SlotsWellFormed(slots: seq<string>) {
    forall i :: 0 <= i < |slots| ==> IsSlot(slots[i])
  }

  /** What slot `j` reads as: past the end of the array it is undefined, "" */
  function SlotAt(slots: seq<string>, j: nat): string {
    if j < |slots| then slots[j] else ""
  }

  /** How many slots hold a digit */
  function FilledCount(slots: seq<string>): nat {
    if slots == [] then 0
    else FilledCount(slots[..|slots| - 1]) + (if slots[|slots| - 1] != "" then 1 else 0)
  }

  /** `codeDigits[index] = v` on a JavaScript array: grows it (with holes)
      when `index` is past the end */
  function WriteSlot(slots: seq<string>, index: nat, v: string): (r: seq<string>)
    ensures |r| == if index < |slots| then |slots| else index + 1
    ensures r[index] == v
    ensures forall j :: 0 <= j < |r| && j != index ==> r[j] == SlotAt(slots, j)
  {
    if index < |slots| then slots[index := v]
    else slots + seq(index - |slots|, _ => "") + [v]
  }

  /** `onKeyInput(event, index)`: the box keeps at most its first ASCII digit,
      that value goes into slot `index` alone, and the error message clears */
  function OnKeyInput(f: Footer, index: nat, raw: string): (r: Footer)
    ensures r.errorMessage == ""
    ensures index < |r.codeDigits| && r.codeDigits[index] == SanitizeDigit(raw)
    ensures forall j :: 0 <= j < |r.codeDigits| && j != index ==> r.codeDigits[j] == SlotAt(f.codeDigits, j)
    ensures |r.codeDigits| == if index < |f.codeDigits| then |f.codeDigits| else index + 1
    ensures SlotsWellFormed(f.codeDigits) ==> SlotsWellFormed(r.codeDigits)
    ensures r.(errorMessage := f.errorMessage, codeDigits := f.codeDigits) == f
  {
    f.(errorMessage := "", codeDigits := WriteSlot(f.codeDigits, index, SanitizeDigit(raw)))
  }

  /** `clearInputs(container)`: every slot and the message are emptied */
  function ClearInputs(f: Footer): (r: Footer)
    ensures r.codeDigits == [] && r.errorMessage == ""
    ensures BuildCode(r) == "" && Submit(r).request.None?
    ensures r.(codeDigits := f.codeDigits, errorMessage := f.errorMessage) == f
  {
    f.(errorMessage := "", codeDigits := [])
  }

  // ---------------------------------------------------------------------------
  // Building and submitting the code
  // ---------------------------------------------------------------------------

  /** `buildCode()`: `codeDigits.join('').trim()` */
  function BuildCode(f: Footer): string {
    Trim(Concat(f.codeDigits))
  }

  /** Joining well-formed slots yields only digits, one per filled slot */
  lemma {:induction false} ConcatSlots(slots: seq<string>)
    requires SlotsWellFormed(slots)
    ensures AllDigits(Concat(slots))
    ensures |Concat(slots)| == FilledCount(slots)
  {
    if slots != [] {
      var init := slots[..|slots| - 1];
      assert SlotsWellFormed(init) by {
        forall i | 0 <= i < |init| ensures IsSlot(init[i]) {
          assert init[i] == slots[i];
        }
      }
      ConcatSlots(init);
      assert IsSlot(slots[|slots| - 1]);
    }
  }

  lemma {:induction false} Utf16LengthOfDigits(s: string)
    requires AllDigits(s)
    ensures Utf16Length(s) == |s|
  {
    if s != [] {
      assert AllDigits(s[1..]) by {
        forall i | 0 <= i < |s[1..]| ensures IsAsciiDigit(s[1..][i]) {
          assert s[1..][i] == s[i + 1];
        }
      }
      Utf16LengthOfDigits(s[1..]);
    }
  }

  /** On a well-formed buffer the code is the plain concatenation of the slots:
      it holds only digits, one per filled slot, and `trim` removes nothing */
  lemma BuildCodeOfSlots(f: Footer)
    requires SlotsWellFormed(f.codeDigits)
    ensures BuildCode(f) == Concat(f.codeDigits)
    ensures AllDigits(BuildCode(f))
    ensures |BuildCode(f)| == Utf16Length(BuildCode(f)) == FilledCount(f.codeDigits)
  {
    ConcatSlots(f.codeDigits);
    TrimKeepsDigits(Concat(f.codeDigits));
    Utf16LengthOfDigits(Concat(f.codeDigits));
  }

  /** At most every slot is filled, and all are exactly when none is empty */
  lemma {:induction false} FilledCountBound(slots: seq<string>)
    ensures FilledCount(slots) <= |slots|
    ensures FilledCount(slots) == |slots| <==> forall i :: 0 <= i < |slots| ==> slots[i] != ""
  {
    if slots != [] {
      var init := slots[..|slots| - 1];
      FilledCountBound(init);
      assert forall i :: 0 <= i < |init| ==> init[i] == slots[i];
    }
  }

  /** The outcome of `submit()`: the new state and the verify call, if any */
  datatype Submission = Submission(footer: Footer, request: Option<VerifyRequest>)

  /** `submit()`: a code is sent only when it is non-empty and exactly `digits`
      long; otherwise the message asks for `digits` digits and nothing else
      changes. On a well-formed buffer that means exactly `digits` > 0 filled
      slots. */
  function Submit(f: Footer): (r: Submission)
    ensures r.request.Some? ==>
              && r.request.value == VerifyRequest(f.keyType.WireName(), BuildCode(f))
              && r.footer == f.(isLoading := true, errorMessage := "")
    ensures r.request.None? ==> r.footer == f.(errorMessage := DigitsMessage(f.digits))
    ensures SlotsWellFormed(f.codeDigits) ==>
              (r.request.Some? <==> 0 < f.digits == FilledCount(f.codeDigits))
  {
    var cleared := f.(errorMessage := "");
    var code := BuildCode(cleared);
    assert SlotsWellFormed(f.codeDigits) ==> |code| == Utf16Length(code) == FilledCount(f.codeDigits) by {
      if SlotsWellFormed(f.codeDigits) {
        BuildCodeOfSlots(f);
      }
    }
    if code == "" || Utf16Length(code) != f.digits then
      Submission(cleared.(errorMessage := DigitsMessage(f.digits)), None)
    else
      Submission(cleared.(isLoading := true), Some(VerifyRequest(f.keyType.WireName(), code)))
  }

  /** When boxes are only ever written below `digits`, the code goes out
      exactly when every one of the `digits` boxes holds a digit: a skipped or
      cleared box shortens the code and it is refused. */
  lemma SubmitNeedsEveryBox(f: Footer)
    requires SlotsWellFormed(f.codeDigits) && |f.codeDigits| <= f.digits
    ensures Submit(f).request.Some? <==>
              && 0 < f.digits == |f.codeDigits|
              && forall i :: 0 <= i < |f.codeDigits| ==> f.codeDigits[i] != ""
  {
    FilledCountBound(f.codeDigits);
  }

  // ---------------------------------------------------------------------------
  // Typing a whole code
  // ---------------------------------------------------------------------------

  /** Types the characters of `s` into boxes 0, 1, ... in order */
  function TypeCode(f: Footer, s: string): Footer {
    if s == [] then f
    else OnKeyInput(TypeCode(f, s[..|s| - 1]), |s| - 1, [s[|s| - 1]])
  }

  /** Typing digits into an empty buffer leaves one slot per digit */
  lemma {:induction false} TypeCodeSlots(f: Footer, s: string)
    requires f.codeDigits == [] && AllDigits(s)
    ensures |TypeCode(f, s).codeDigits| == |s|
    ensures forall i :: 0 <= i < |s| ==> TypeCode(f, s).codeDigits[i] == [s[i]]
    ensures TypeCode(f, s).(errorMessage := f.errorMessage, codeDigits := []) == f
  {
    if s != [] {
      var init := s[..|s| - 1];
      assert AllDigits(init) by {
        forall i | 0 <= i < |init| ensures IsAsciiDigit(init[i]) {
          assert init[i] == s[i];
        }
      }
      TypeCodeSlots(f, init);
      var c := s[|s| - 1];
      assert IsAsciiDigit([c][0]);
      assert SanitizeDigit([c]) == [c];
    }
  }

  lemma {:induction false} ConcatSingles(slots: seq<string>, s: string)
    requires |slots| == |s|
    requires forall i :: 0 <= i < |s| ==> slots[i] == [s[i]]
    ensures Concat(slots) == s
  {
    if s != [] {
      ConcatSingles(slots[..|slots| - 1], s[..|s| - 1]);
      assert s == s[..|s| - 1] + [s[|s| - 1]];
    }
  }

  /** Typing a `digits`-long code into a cleared footer and submitting sends
      exactly that code under the footer's key type */
  lemma TypingAFullCodeSendsIt(f: Footer, s: string)
    requires f.codeDigits == [] && AllDigits(s) && 0 < |s| == f.digits
    ensures Submit(TypeCode(f, s)).request == Some(VerifyRequest(f.keyType.WireName(), s))
  {
    var t := TypeCode(f, s);
    TypeCodeSlots(f, s);
    ConcatSingles(t.codeDigits, s);
    assert SlotsWellFormed(t.codeDigits) by {
      forall i | 0 <= i < |t.codeDigits| ensures IsSlot(t.codeDigits[i]) {
        assert t.codeDigits[i] == [s[i]];
      }
    }
    BuildCodeOfSlots(t);
  }

  // ---------------------------------------------------------------------------
  // Responses
  // ---------------------------------------------------------------------------

  /** The state after a response and the navigation it triggers, if any */
  datatype Outcome = Outcome(footer: Footer, navigation: Option<Navigation>)

  /** The `next` handler: loading stops; success navigates to `redirectTo`;
      anything else shows the server's message, or "invalid code" when it has
      none. The slots are never touched. */
  function OnVerifyResponse(f: Footer, res: Option<VerifyResponse>): (o: Outcome)
    ensures !o.footer.isLoading
    ensures o.navigation.Some? <==> res.Some? && res.value.success
    ensures o.navigation.Some? ==> o.navigation.value == NavigateByUrl(f.redirectTo)
                                   && o.footer == f.(isLoading := false)
    ensures o.navigation.None? ==>
              && o.footer.errorMessage != ""
              && o.footer == f.(isLoading := false, errorMessage := o.footer.errorMessage)
              && (if res.Some? && Truthy(res.value.message) then o.footer.errorMessage == res.value.message.value
                  else o.footer.errorMessage == InvalidCodeMessage)
  {
    var stopped := f.(isLoading := false);
    if res.Some? && res.value.success then
      Outcome(stopped, Some(NavigateByUrl(f.redirectTo)))
    else
      var message := if res.Some? then res.value.message else None;
      Outcome(stopped.(errorMessage := OrElse(message, InvalidCodeMessage)), None)
  }

  /** The `error` handler: loading stops and a non-empty message is always
      shown: the server's own, else the connection message for status 0, else
      "invalid code". */
  function OnVerifyError(f: Footer, err: HttpErrorResponse): (r: Footer)
    ensures !r.isLoading && r.errorMessage != ""
    ensures Truthy(ErrorMessage(err)) ==> r.errorMessage == ErrorMessage(err).value
    ensures !Truthy(ErrorMessage(err)) ==>
              r.errorMessage == (if err.status == 0 then ConnectionMessage else InvalidCodeMessage)
    ensures r.(isLoading := f.isLoading, errorMessage := f.errorMessage) == f
  {
    f.(isLoading := false,
       errorMessage := OrElse(ErrorMessage(err), if err.status == 0 then ConnectionMessage else InvalidCodeMessage))
  }
}
