/**
 * The access-code gate of src/components/LandingPage.tsx: the code typed in is
 * trimmed and upper-cased, compared with the administrator code first and
 * then looked up in the fixed code table; the outcome is an error message or
 * a scheduled grant that `onAccessGranted` receives 300 ms later. Session
 * storage is a field of the gate; the timer is the method `TimerFires`.
 */
module Landing {
  import opened Base
  import opened Text
  import opened Dict
  import opened Pdk

  /** `ADMIN_ACCESS_CODE`. */
  const AdminAccessCode: string := "ADMIN-REHABSERVE-2025"

  /** `PDK_ACCESS_CODES`, in key order. */
  const PdkAccessCodes: Assoc<string, string> := [
    ("JUL-PDK-01", "PDK Julau"), ("BAU-PDK-01", "PDK Bau"), ("BTK-PDK-01", "PDK Batu Kawa"),
    ("BTG-PDK-01", "PDK Betong"), ("BHL-PDK-01", "PDK Borneo Highland"), ("KK-PDK-01", "PDK KK"),
    ("MJM-PDK-01", "PDK Morsjaya Miri"), ("NQS-PDK-01", "PDK Nur Quseh Sibu"), ("PEN-PDK-01", "PDK Penrissen"),
    ("PIB-PDK-01", "PDK Pibalqis Miri"), ("PUT-PDK-01", "PDK Putrajaya"), ("SDJ-PDK-01", "PDK Sadong Jaya"),
    ("SRT-PDK-01", "PDK Saratok"), ("SRK-PDK-01", "PDK Sarikei"), ("SBJ-PDK-01", "PDK Seberang Jaya"),
    ("SBY-PDK-01", "PDK Sebuyau"), ("SKH-PDK-01", "PDK Sentuhan Kasih Kuching"),
    ("SPT-PDK-01", "PDK Sinar Putrajaya"), ("SAM-PDK-01", "PDK Sri Aman"), ("SFM-PDK-01", "PDK Sunflower Miri"),
    ("SGT-PDK-01", "PDK Sungai Tiram"), ("TMP-PDK-01", "PDK Tampaioli"), ("TUA-PDK-01", "PDK Tuaran")]

  const EmptyCodeMessage: string := "Please enter a PDK access code."
  const InvalidCodeMessage: string := "Invalid PDK code. Please try again."

  /** One call of `onAccessGranted(pdkCode, isAdmin)`. */
  datatype Grant = Grant(pdk: string, isAdmin: bool)

  /** How a submitted code is judged. */
  datatype Verdict = Blank | AdminCode | PdkCode(name: string) | UnknownCode

  /** `accessCode.trim().toUpperCase()`. */
  function Normalize(code: string): string
  {
    Upper(Trim(code))
  }

  /**
   * The checks `handleSubmit` makes on the normalised code, in order, against
   * the code table `codes`: blank, then the administrator code, then a
   * (non-empty) table entry; anything else is unknown.
   */
  function Judge(codes: Assoc<string, string>, normalizedCode: string): (v: Verdict)
    ensures v == Blank <==> normalizedCode == ""
    ensures v == AdminCode <==> normalizedCode == AdminAccessCode
    ensures v.PdkCode? ==> Lookup(codes, normalizedCode) == Some(v.name) && v.name != ""
    ensures v == UnknownCode <==>
            normalizedCode != "" && normalizedCode != AdminAccessCode &&
            (Lookup(codes, normalizedCode).None? || Lookup(codes, normalizedCode) == Some(""))
  {
    if normalizedCode == "" then Blank
    else if normalizedCode == AdminAccessCode then AdminCode
    else match Lookup(codes, normalizedCode)
      case Some(name) => if name != "" then PdkCode(name) else UnknownCode
      case None => UnknownCode
  }

  /** The gate's state: the React state of the form, session storage, and the grant calls. */
  class AccessGate {
    /** The code table, `PDK_ACCESS_CODES`. */
    const codes: Assoc<string, string>
    var accessCode: string
    var error: string
    var isSubmitting: bool
    /** `sessionStorage`. */
    var storage: map<string, string>
    /** Grants whose 300 ms timer has not fired yet, oldest first. */
    var scheduled: seq<Grant>
    /** Every `onAccessGranted` call so far, in order. */
    var granted: seq<Grant>

    constructor ()
      ensures codes == PdkAccessCodes
      ensures accessCode == "" && error == "" && !isSubmitting
      ensures storage == map[] && scheduled == [] && granted == []
    {
      codes := PdkAccessCodes;
      accessCode := "";
      error := "";
      isSubmitting := false;
      storage := map[];
      scheduled := [];
      granted := [];
    }

    /** `handleInputChange`: the new text replaces the code and any error is cleared. */
    method HandleInputChange(value: string)
      modifies this
      ensures accessCode == value && error == ""
      ensures isSubmitting == old(isSubmitting) && storage == old(storage)
      ensures scheduled == old(scheduled) && granted == old(granted)
    {
      accessCode := value;
      if error != "" {
        error := "";
      }
    }

    /**
     * `handleSubmit`: a blank or unknown code sets its message and ends the
     * submission; the administrator code and a known code write session
     * storage and schedule their grant, and the submission stays open until
     * the timer fires. The typed code and past grants never change.
     */
    method HandleSubmit()
      modifies this
      ensures accessCode == old(accessCode) && granted == old(granted)
      ensures match Judge(codes, Normalize(old(accessCode)))
        case Blank =>
          error == EmptyCodeMessage && !isSubmitting && storage == old(storage) && scheduled == old(scheduled)
        case UnknownCode =>
          error == InvalidCodeMessage && !isSubmitting && storage == old(storage) && scheduled == old(scheduled)
        case AdminCode =>
          error == "" && isSubmitting && scheduled == old(scheduled) + [Grant("all", true)] &&
          storage == old(storage)["isAdmin" := "true"]["pdkAccessCode" := AdminAccessCode]
        case PdkCode(name) =>
          error == "" && isSubmitting && scheduled == old(scheduled) + [Grant(name, false)] &&
          storage == old(storage)["assignedPDK" := name]["isAdmin" := "false"]["pdkAccessCode" := Normalize(old(accessCode))]
    {
      error := "";
      isSubmitting := true;
      var normalizedCode := Normalize(accessCode);
      Submit(normalizedCode);
    }

    /** The checks and effects of `handleSubmit` once the code is normalised. */
    method Submit(normalizedCode: string)
      modifies this
      ensures accessCode == old(accessCode) && granted == old(granted)
      ensures match Judge(codes, normalizedCode)
        case Blank =>
          error == EmptyCodeMessage && !isSubmitting && storage == old(storage) && scheduled == old(scheduled)
        case UnknownCode =>
          error == InvalidCodeMessage && !isSubmitting && storage == old(storage) && scheduled == old(scheduled)
        case AdminCode =>
          error == old(error) && isSubmitting == old(isSubmitting) && scheduled == old(scheduled) + [Grant("all", true)] &&
          storage == old(storage)["isAdmin" := "true"]["pdkAccessCode" := AdminAccessCode]
        case PdkCode(name) =>
          error == old(error) && isSubmitting == old(isSubmitting) && scheduled == old(scheduled) + [Grant(name, false)] &&
          storage == old(storage)["assignedPDK" := name]["isAdmin" := "false"]["pdkAccessCode" := normalizedCode]
    {
      if normalizedCode == "" {
        error := EmptyCodeMessage;
        isSubmitting := false;
        return;
      }
      if normalizedCode == AdminAccessCode {
        storage := storage["isAdmin" := "true"];
        storage := storage["pdkAccessCode" := normalizedCode];
        scheduled := scheduled + [Grant("all", true)];
        return;
      }
      var pdkName := Lookup(codes, normalizedCode);
      if pdkName.None? || pdkName.value == "" {
        error := InvalidCodeMessage;
        isSubmitting := false;
        return;
      }
      storage := storage["assignedPDK" := pdkName.value];
      storage := storage["isAdmin" := "false"];
      storage := storage["pdkAccessCode" := normalizedCode];
      scheduled := scheduled + [Grant(pdkName.value, false)];
    }

    /** The 300 ms timer of the oldest scheduled grant: the grant is made and the submission closes. */
    method TimerFires()
      modifies this
      ensures accessCode == old(accessCode) && error == old(error) && storage == old(storage)
      ensures old(scheduled) == [] ==> isSubmitting == old(isSubmitting) && scheduled == [] && granted == old(granted)
      ensures old(scheduled) != [] ==>
              !isSubmitting && scheduled == old(scheduled)[1..] && granted == old(granted) + [old(scheduled)[0]]
    {
      if scheduled != [] {
        granted := granted + [scheduled[0]];
        scheduled := scheduled[1..];
        isSubmitting := false;
      }
    }
  }

  // ---- What the gate promises ----

  /** Upper-casing forgets what lower-casing did. */
  lemma UpperOfLower(s: string)
    ensures Upper(Lower(s)) == Upper(s)
  {
  }

  /** Lower-casing keeps white space where it is and touches nothing else of it. */
  lemma LowerKeepsSpace(s: string, k: nat)
    requires k < |s|
    ensures IsJsSpace(Lower(s)[k]) <==> IsJsSpace(s[k])
  {
  }

  /**
   * Matching ignores case and surrounding white space: a code typed in lower
   * case and padded with white space normalises to the code itself.
   */
  lemma NormalizeIgnoresCaseAndSpace(pre: string, code: string, post: string)
    requires forall k :: 0 <= k < |pre| ==> IsJsSpace(pre[k])
    requires forall k :: 0 <= k < |post| ==> IsJsSpace(post[k])
    requires code != [] && !IsJsSpace(code[0]) && !IsJsSpace(code[|code| - 1])
    ensures Normalize(pre + Lower(code) + post) == Normalize(code)
  {
    var l := Lower(code);
    LowerKeepsSpace(code, 0);
    LowerKeepsSpace(code, |code| - 1);
    TrimOfPadded(pre, l, post);
    TrimOfPadded([], code, []);
    assert [] + code + [] == code;
    UpperOfLower(code);
  }

  /** Upper-casing a text without lower-case letters changes nothing. */
  lemma {:induction false} UpperOfUpper(s: string)
    requires forall k :: 0 <= k < |s| ==> !('a' <= s[k] <= 'z')
    ensures Upper(s) == s
  {
  }

  /** A code already trimmed and upper-cased is its own normal form. */
  lemma NormalizeOfNormal(s: string)
    requires s != [] && !IsJsSpace(s[0]) && !IsJsSpace(s[|s| - 1])
    requires forall k :: 0 <= k < |s| ==> !('a' <= s[k] <= 'z')
    ensures Normalize(s) == s
  {
    TrimOfPadded([], s, []);
    assert [] + s + [] == s;
    UpperOfUpper(s);
  }

  /** The administrator code is recognised before the table is consulted. */
  lemma AdminCodeGrantsAll()
    ensures Judge(PdkAccessCodes, Normalize(AdminAccessCode)) == AdminCode
  {
    NormalizeOfNormal(AdminAccessCode);
  }

  /** The table codes at positions below 8 differ from every later one; the two lemmas below cover the rest. */
  lemma CodeKeysDistinctLow()
    ensures forall i, j :: 0 <= i < j < |PdkAccessCodes| && i < 8 ==> PdkAccessCodes[i].0 != PdkAccessCodes[j].0
  {
  }

  lemma CodeKeysDistinctMiddle()
    ensures forall i, j :: 8 <= i < j < |PdkAccessCodes| && i < 16 ==> PdkAccessCodes[i].0 != PdkAccessCodes[j].0
  {
  }

  lemma CodeKeysDistinctHigh()
    ensures forall i, j :: 16 <= i < j < |PdkAccessCodes| ==> PdkAccessCodes[i].0 != PdkAccessCodes[j].0
  {
  }

  /** No code appears twice in the table. */
  lemma CodeKeysDistinct()
    ensures DistinctKeys(PdkAccessCodes)
  {
    CodeKeysDistinctLow();
    CodeKeysDistinctMiddle();
    CodeKeysDistinctHigh();
  }

  /** In a table without repeated codes, an entry's code with a non-empty centre opens that centre. */
  lemma JudgeTableEntry(codes: Assoc<string, string>, i: nat)
    requires DistinctKeys(codes) && i < |codes|
    requires codes[i].0 != "" && codes[i].0 != AdminAccessCode && codes[i].1 != ""
    ensures Judge(codes, codes[i].0) == PdkCode(codes[i].1)
  {
    LookupAt(codes, i);
  }

  /** A normalised code equal to a table code is a known code of its centre. */
  lemma TableCodeGrants(i: nat)
    requires i < |PdkAccessCodes|
    ensures Judge(PdkAccessCodes, PdkAccessCodes[i].0) == PdkCode(PdkAccessCodes[i].1)
  {
    CodeKeysDistinct();
    assert PdkAccessCodes[i].0 != "" && PdkAccessCodes[i].0 != AdminAccessCode && PdkAccessCodes[i].1 != "";
    JudgeTableEntry(PdkAccessCodes, i);
  }

  /** The code of PDK Julau is written trimmed and in upper case. */
  lemma JulauCodeIsNormal()
    ensures Normalize("JUL-PDK-01") == "JUL-PDK-01"
  {
    NormalizeOfNormal("JUL-PDK-01");
  }

  /** Typed in lower case between spaces, the code of PDK Julau normalises to itself. */
  lemma PaddedLowerCaseCode()
    ensures Normalize(" jul-pdk-01 ") == "JUL-PDK-01"
  {
    var code := "JUL-PDK-01";
    assert Lower(code) == "jul-pdk-01";
    assert " jul-pdk-01 " == " " + Lower(code) + " ";
    NormalizeIgnoresCaseAndSpace(" ", code, " ");
    JulauCodeIsNormal();
  }

  /** ... and so still opens PDK Julau. */
  lemma PaddedLowerCaseCodeGrants()
    ensures Judge(PdkAccessCodes, Normalize(" jul-pdk-01 ")) == PdkCode("PDK Julau")
  {
    PaddedLowerCaseCode();
    TableCodeGrants(0);
  }

  /** No two codes open the same centre. */
  lemma CodesInjective(i: nat, j: nat)
    requires i < j < |PdkAccessCodes|
    ensures PdkAccessCodes[i].1 != PdkAccessCodes[j].1
  {
  }

  /** Every centre behind a code is a selectable centre. */
  lemma CodeNamesListed(i: nat)
    requires i < |PdkAccessCodes|
    ensures PdkAccessCodes[i].1 in PdkList
  {
  }

  /** For each selectable centre, the position of its code in the table. */
  const CodeIndexOfListed: seq<nat> := [2, 1, 3, 4, 0, 5, 6, 7, 8, 9, 10, 11, 12, 13, 14, 15, 16, 17, 18, 19, 20, 21, 22]

  /** Every selectable centre has a code. */
  lemma ListedNamesHaveCodes(j: nat)
    requires j < |PdkList|
    ensures exists i :: 0 <= i < |PdkAccessCodes| && PdkAccessCodes[i].1 == PdkList[j]
  {
    var i := CodeIndexOfListed[j];
    assert PdkAccessCodes[i].1 == PdkList[j];
  }
}
