/**
 * The petition form: the fourteen text fields the generator reads, and
 * `validateForm`, which demands that every one of them be filled in and that
 * the national ID number (TCKN) be exactly eleven decimal digits.
 */
module Form {
  import opened Text

  datatype FormData = FormData(
    fullName: string,
    tckn: string,
    address: string,
    sgkCity: string,
    sgkDistrict: string,
    workCity: string,
    workDistrict: string,
    profession: string,
    startDate: string,
    applicationDate: string,
    approvalDate: string,
    taxOffice: string,
    debtAmount: string,
    petitionDate: string)

  /** The names of the form's fields. */
  datatype Field =
    | FullName | Tckn | Address | SgkCity | SgkDistrict | WorkCity | WorkDistrict
    | Profession | StartDate | ApplicationDate | ApprovalDate | TaxOffice | DebtAmount | PetitionDate

  /** `data[field]`. */
  function Get(d: FormData, f: Field): string
  {
    match f
    case FullName => d.fullName
    case Tckn => d.tckn
    case Address => d.address
    case SgkCity => d.sgkCity
    case SgkDistrict => d.sgkDistrict
    case WorkCity => d.workCity
    case WorkDistrict => d.workDistrict
    case Profession => d.profession
    case StartDate => d.startDate
    case ApplicationDate => d.applicationDate
    case ApprovalDate => d.approvalDate
    case TaxOffice => d.taxOffice
    case DebtAmount => d.debtAmount
    case PetitionDate => d.petitionDate
  }

  /** `requiredFields`, in the order `validateForm` inspects them. */
  const RequiredFields: seq<Field> := [
    FullName, Tckn, Address, SgkCity, SgkDistrict,
    WorkCity, WorkDistrict, Profession, StartDate,
    ApplicationDate, ApprovalDate, TaxOffice, DebtAmount, PetitionDate
  ]

  /** `!value || value.trim() === ''`: the value is empty or nothing but whitespace. */
  function Blank(value: string): (blank: bool)
    ensures blank <==> AllWhitespace(value)
  {
    TrimEmptyIffBlank(value);
    value == "" || Trim(value) == ""
  }

  /** Every required field holds something other than whitespace. */
  predicate AllFilled(d: FormData)
  {
    forall i :: 0 <= i < |RequiredFields| ==> !Blank(Get(d, RequiredFields[i]))
  }

  /**
   * `/^\d{11}$/.test(tckn)`: exactly eleven ASCII digits and nothing else,
   * so an accepted ID number is never blank.
   */
  function IsTckn(s: string): (ok: bool)
    ensures ok ==> |s| == 11 && !Blank(s)
  {
    var ok := |s| == 11 && forall i :: 0 <= i < |s| ==> '0' <= s[i] <= '9';
    assert ok ==> !AllWhitespace(s) by {
      if ok { assert !IsJsWhitespace(s[0]); }
    }
    ok
  }

  /** What `validateForm` accepts. */
  predicate IsValid(d: FormData)
  {
    AllFilled(d) && IsTckn(d.tckn)
  }

  /** Every field of the form is required. */
  lemma EveryFieldRequired(f: Field)
    ensures f in RequiredFields
  {
  }

  /**
   * `validateForm`: the fields are inspected in order and the first blank one
   * rejects the form; only then is the ID number's format checked.
   * `idRejected` reports that the ID check was reached and failed, which is
   * when the source shows its ID-number message.
   */
  method ValidateForm(d: FormData) returns (ok: bool, idRejected: bool)
    ensures ok <==> IsValid(d)
    ensures idRejected <==> AllFilled(d) && !IsTckn(d.tckn)
    ensures !(ok && idRejected)
  {
    for i := 0 to |RequiredFields|
      invariant forall j :: 0 <= j < i ==> !Blank(Get(d, RequiredFields[j]))
    {
      if Blank(Get(d, RequiredFields[i])) {
        return false, false;
      }
    }
    if !IsTckn(d.tckn) {
      return false, true;
    }
    return true, false;
  }

  /** A well-formed ID number carries no whitespace around it, so trimming leaves it as typed. */
  lemma TcknIsTrimmed(s: string)
    requires IsTckn(s)
    ensures Trim(s) == s
  {
    assert !IsJsWhitespace(s[0]) && !IsJsWhitespace(s[|s| - 1]);
    TrimFixesTrimmed(s);
  }

  /** A form with a blank field is rejected whatever its ID number. */
  lemma BlankFieldRejects(d: FormData, f: Field, id: string)
    requires Blank(Get(d, f))
    ensures !IsValid(d) && (f != Tckn ==> !IsValid(d.(tckn := id)))
  {
    EveryFieldRequired(f);
    var i :| 0 <= i < |RequiredFields| && RequiredFields[i] == f;
    assert Blank(Get(d, RequiredFields[i]));
    if f != Tckn {
      assert Get(d.(tckn := id), RequiredFields[i]) == Get(d, f);
    }
  }

  /**
   * With every other field filled, `"12345"` is rejected as an ID number and
   * `"12345678901"` accepted.
   */
  lemma ValidateExamples(d: FormData)
    requires AllFilled(d)
    ensures !IsValid(d.(tckn := "12345"))
    ensures IsValid(d.(tckn := "12345678901"))
  {
    var good := d.(tckn := "12345678901");
    assert IsTckn(good.tckn);
    forall i | 0 <= i < |RequiredFields| ensures !Blank(Get(good, RequiredFields[i])) {
      if RequiredFields[i] != Tckn {
        assert Get(good, RequiredFields[i]) == Get(d, RequiredFields[i]);
      }
    }
  }
}
