/**
 * The petition generator (`PetitionGenerator`): fills the SGK template from
 * a validated form and remembers the petition type and the last text it
 * produced.
 */
module Petition {
  import opened Wrappers
  import opened Text
  import opened Calendar
  import opened Form
  import opened SgkTemplate

  // ---------------------------------------------------------------------
  // filling a template
  // ---------------------------------------------------------------------

  /** A template literal: the first piece, then each value followed by the next piece. */
  function Interleave(segs: seq<string>, vals: seq<string>): string
    requires |segs| == |vals| + 1
    decreases |vals|
  {
    if |vals| == 0 then segs[0] else segs[0] + vals[0] + Interleave(segs[1..], vals[1..])
  }

  /** Where value `i` begins in the filled template. */
  function SlotOffset(segs: seq<string>, vals: seq<string>, i: nat): nat
    requires |segs| == |vals| + 1 && i < |vals|
    decreases i
  {
    if i == 0 then |segs[0]| else |segs[0]| + |vals[0]| + SlotOffset(segs[1..], vals[1..], i - 1)
  }

  /** `text` holds `v` starting at offset `o`. */
  predicate PrintedAt(text: string, o: int, v: string)
  {
    0 <= o && o + |v| <= |text| && text[o..o + |v|] == v
  }

  /** Value `i` stands at its offset, right after literal piece `i`. */
  lemma {:induction false} InterleaveSlot(segs: seq<string>, vals: seq<string>, i: nat)
    requires |segs| == |vals| + 1 && i < |vals|
    ensures var text, o := Interleave(segs, vals), SlotOffset(segs, vals, i);
      PrintedAt(text, o - |segs[i]|, segs[i]) && PrintedAt(text, o, vals[i])
  {
    var text, o := Interleave(segs, vals), SlotOffset(segs, vals, i);
    var p := FilledPrefix(segs, vals, i);
    var tail := Interleave(segs[i..], vals[i..]);
    var rest := Interleave(segs[i + 1..], vals[i + 1..]);
    InterleaveSplit(segs, vals, i);
    SlotOffsetPrefix(segs, vals, i);
    assert tail == segs[i] + vals[i] + rest by {
      assert segs[i..][0] == segs[i] && vals[i..][0] == vals[i];
      assert segs[i..][1..] == segs[i + 1..] && vals[i..][1..] == vals[i + 1..];
    }
    assert text == p + (segs[i] + vals[i] + rest);
    SliceMiddle(p, segs[i], vals[i], rest);
  }

  /** Where value `i` begins: after the first `i` pieces and values, and piece `i`. */
  lemma {:induction false} SlotOffsetPrefix(segs: seq<string>, vals: seq<string>, i: nat)
    requires |segs| == |vals| + 1 && i < |vals|
    ensures SlotOffset(segs, vals, i) == |FilledPrefix(segs, vals, i)| + |segs[i]|
    decreases i
  {
    if i > 0 {
      SlotOffsetPrefix(segs[1..], vals[1..], i - 1);
    }
  }

  /** The two middle parts of `p + (a + b + r)`, found by their offsets. */
  lemma SliceMiddle(p: string, a: string, b: string, r: string)
    ensures (p + (a + b + r))[|p|..|p| + |a|] == a
    ensures (p + (a + b + r))[|p| + |a|..|p| + |a| + |b|] == b
  {
    var t := p + (a + b + r);
    assert t[|p|..] == a + b + r;
  }

  /** The first `n` pieces and values of a template, each piece followed by its value. */
  function FilledPrefix(segs: seq<string>, vals: seq<string>, n: nat): string
    requires |segs| == |vals| + 1 && n <= |vals|
    decreases n
  {
    if n == 0 then "" else segs[0] + vals[0] + FilledPrefix(segs[1..], vals[1..], n - 1)
  }

  /** A filled template is its first `n` pieces and values followed by the rest of it, filled. */
  lemma {:induction false} InterleaveSplit(segs: seq<string>, vals: seq<string>, n: nat)
    requires |segs| == |vals| + 1 && n <= |vals|
    ensures Interleave(segs, vals) == FilledPrefix(segs, vals, n) + Interleave(segs[n..], vals[n..])
    decreases n
  {
    if n > 0 {
      InterleaveSplit(segs[1..], vals[1..], n - 1);
      assert segs[1..][n - 1..] == segs[n..];
      assert vals[1..][n - 1..] == vals[n..];
    }
  }

  /** Extending a filled prefix by one more piece and value. */
  lemma {:induction false} FilledPrefixStep(segs: seq<string>, vals: seq<string>, n: nat)
    requires |segs| == |vals| + 1 && n < |vals|
    ensures FilledPrefix(segs, vals, n + 1) == FilledPrefix(segs, vals, n) + segs[n] + vals[n]
    decreases n
  {
    if n > 0 {
      FilledPrefixStep(segs[1..], vals[1..], n - 1);
    }
  }

  /** The first five pieces and values, written out. */
  lemma FilledPrefixFive(segs: seq<string>, vals: seq<string>)
    requires |segs| == |vals| + 1 && 5 <= |vals|
    ensures FilledPrefix(segs, vals, 5)
      == segs[0] + vals[0] + segs[1] + vals[1] + segs[2] + vals[2] + segs[3] + vals[3] + segs[4] + vals[4]
  {
    FilledPrefixStep(segs, vals, 0);
    assert FilledPrefix(segs, vals, 1) == segs[0] + vals[0];
    FilledPrefixStep(segs, vals, 1);
    FilledPrefixStep(segs, vals, 2);
    FilledPrefixStep(segs, vals, 3);
    FilledPrefixStep(segs, vals, 4);
  }

  /** `text.endsWith(suffix)`. */
  predicate EndsWith(text: string, suffix: string)
  {
    |suffix| <= |text| && text[|text| - |suffix|..] == suffix
  }

  /** When the last piece is empty, the filled template ends with the last value. */
  lemma {:induction false} InterleaveEndsWithLast(segs: seq<string>, vals: seq<string>)
    requires |segs| == |vals| + 1 && |vals| >= 1 && segs[|vals|] == ""
    ensures |vals[|vals| - 1]| <= |Interleave(segs, vals)|
    ensures Interleave(segs, vals)[|Interleave(segs, vals)| - |vals[|vals| - 1]|..] == vals[|vals| - 1]
    decreases |vals|
  {
    var text := Interleave(segs, vals);
    var rest := Interleave(segs[1..], vals[1..]);
    if |vals| == 1 {
      assert rest == "";
      assert text == segs[0] + vals[0];
    } else {
      InterleaveEndsWithLast(segs[1..], vals[1..]);
      assert text == segs[0] + vals[0] + rest;
      assert text[|text| - |rest|..] == rest;
    }
  }

  // ---------------------------------------------------------------------
  // generateSGKPetition
  // ---------------------------------------------------------------------

  /** The text one interpolation prints for a form. */
  function SlotText(d: FormData, s: Slot): string
  {
    match s
    case Raw(f) => Get(d, f)
    case UpperCased(f) => Upper(Get(d, f))
    case Formatted(f) => FormatDate(Get(d, f))
    case EndDate => CalculateEndDate(d.startDate)
  }

  /** The interpolated values of the SGK template, in order. */
  function SlotValues(d: FormData): (vals: seq<string>)
    ensures |vals| == |Slots|
    ensures forall i :: 0 <= i < |Slots| ==> vals[i] == SlotText(d, Slots[i])
  {
    seq(|Slots|, i requires 0 <= i < |Slots| => SlotText(d, Slots[i]))
  }

  /**
   * `generateSGKPetition`: the SGK template filled from the form. The text
   * ends with the applicant's name exactly as typed, under the list of
   * attachments.
   */
  function GenerateSGKPetition(d: FormData): (text: string)
    ensures EndsWith(text, d.fullName)
  {
    TemplateShape();
    InterleaveEndsWithLast(Segments(), SlotValues(d));
    Interleave(Segments(), SlotValues(d))
  }

  /** Where interpolation `i` of the SGK template begins in the petition. */
  function PetitionSlotOffset(d: FormData, i: nat): nat
    requires i < |Slots|
  {
    SlotOffset(Segments(), SlotValues(d), i)
  }

  /**
   * Every interpolation prints what its slot says, at its own place, right
   * after the fixed wording that precedes it.
   */
  lemma PetitionPlacesEverySlot(d: FormData, i: nat)
    requires i < |Slots|
    ensures var text, o := GenerateSGKPetition(d), PetitionSlotOffset(d, i);
      && PrintedAt(text, o - |Segments()[i]|, Segments()[i])
      && PrintedAt(text, o, SlotText(d, Slots[i]))
  {
    InterleaveSlot(Segments(), SlotValues(d), i);
  }

  /**
   * Wherever the template interpolates the end date (four places, by
   * `EndDateSlots`), the petition prints `calculateEndDate` of the start date.
   */
  lemma EndDatePlacement(d: FormData)
    ensures forall i :: 0 <= i < |Slots| && Slots[i] == EndDate ==>
      PrintedAt(GenerateSGKPetition(d), PetitionSlotOffset(d, i), CalculateEndDate(d.startDate))
  {
    forall i | 0 <= i < |Slots| && Slots[i] == EndDate
      ensures PrintedAt(GenerateSGKPetition(d), PetitionSlotOffset(d, i), CalculateEndDate(d.startDate))
    {
      PetitionPlacesEverySlot(d, i);
    }
  }

  /** The first five literal pieces and values stand at the start of the petition. */
  lemma PetitionStartsWithFirstFive(d: FormData)
    ensures var vals := SlotValues(d);
      Segments()[0] + vals[0] + Segments()[1] + vals[1] + Segments()[2] + vals[2] + Segments()[3] + vals[3]
      + Segments()[4] + vals[4] <= GenerateSGKPetition(d)
  {
    var vals := SlotValues(d);
    TemplateShape();
    InterleaveSplit(Segments(), vals, 5);
    FilledPrefixFive(Segments(), vals);
  }

  /** The first five literal pieces and values, spelled out. */
  lemma FirstFiveSpelledOut(d: FormData)
    ensures var vals := SlotValues(d);
      Segments()[0] + vals[0] + Segments()[1] + vals[1] + Segments()[2] + vals[2] + Segments()[3] + vals[3]
      + Segments()[4] + vals[4]
      == "SOSYAL GÜVENLİK KURUMU BAŞKANLIĞI\n"
      + Upper(d.sgkCity) + " " + Upper(d.sgkDistrict) + " SOSYAL GÜVENLİK MÜDÜRLÜĞÜNE\n\nAD SOYAD : "
      + Upper(d.fullName) + "\nTCKN : " + d.tckn + "\nADRES : " + d.address
  {
    HeaderSlots();
    HeaderSegments();
    assert Slots[0] == UpperCased(SgkCity) && Slots[1] == UpperCased(SgkDistrict) && Slots[2] == UpperCased(FullName);
    assert Slots[3] == Raw(Tckn) && Slots[4] == Raw(Address);
  }

  /**
   * The petition opens with the addressee, whose province and district are
   * upper-cased, then the applicant's upper-cased name, ID number and address.
   */
  lemma PetitionHeader(d: FormData)
    ensures "SOSYAL GÜVENLİK KURUMU BAŞKANLIĞI\n"
      + Upper(d.sgkCity) + " " + Upper(d.sgkDistrict) + " SOSYAL GÜVENLİK MÜDÜRLÜĞÜNE\n\nAD SOYAD : "
      + Upper(d.fullName) + "\nTCKN : " + d.tckn + "\nADRES : " + d.address
      <= GenerateSGKPetition(d)
  {
    PetitionStartsWithFirstFive(d);
    FirstFiveSpelledOut(d);
  }

  // ---------------------------------------------------------------------
  // the generator
  // ---------------------------------------------------------------------

  class PetitionGenerator {
    var currentPetitionType: string
    var generatedText: string
    /** The form behind `generatedText`: none before the first successful generation. */
    ghost var lastForm: Option<FormData>

    /** `generatedText` is empty or the SGK petition of the last form that passed validation. */
    ghost predicate Valid()
      reads this
    {
      match lastForm
      case None => generatedText == ""
      case Some(d) => IsValid(d) && generatedText == GenerateSGKPetition(d)
    }

    constructor ()
      ensures Valid() && lastForm == None
      ensures currentPetitionType == "sgk" && generatedText == ""
    {
      currentPetitionType := "sgk";
      generatedText := "";
      lastForm := None;
    }

    /**
     * `generate`: an invalid form yields `null` and changes nothing; a valid
     * one records the type and stores and returns the SGK petition, which is
     * the only template whatever the type.
     */
    method Generate(petitionType: string, data: FormData) returns (text: Option<string>)
      requires Valid()
      modifies this
      ensures Valid()
      ensures !IsValid(data) ==> text == None && unchanged(this)
      ensures IsValid(data) ==>
        && text == Some(GenerateSGKPetition(data))
        && currentPetitionType == petitionType
        && generatedText == GenerateSGKPetition(data)
        && lastForm == Some(data)
    {
      var ok, _ := ValidateForm(data);
      if !ok {
        return None;
      }
      Store(petitionType, data);
      text := Some(generatedText);
    }

    /**
     * The valid branch of `generate`: record the type and store the SGK
     * petition. The `switch` on the type has the `sgk` case and a default,
     * and both store the SGK petition, so the type does not choose the text.
     */
    method Store(petitionType: string, data: FormData)
      requires IsValid(data)
      modifies this
      ensures Valid()
      ensures currentPetitionType == petitionType
      ensures generatedText == GenerateSGKPetition(data) && lastForm == Some(data)
    {
      currentPetitionType := petitionType;
      generatedText := GenerateSGKPetition(data);
      lastForm := Some(data);
    }
  }

  /** Two successful generations: the second text replaces the first. */
  method GenerateTwice(g: PetitionGenerator, d1: FormData, d2: FormData) returns (t1: Option<string>, t2: Option<string>)
    requires g.Valid() && IsValid(d1) && IsValid(d2)
    modifies g
    ensures t1 == Some(GenerateSGKPetition(d1)) && t2 == Some(GenerateSGKPetition(d2))
    ensures g.generatedText == GenerateSGKPetition(d2)
  {
    t1 := g.Generate("sgk", d1);
    t2 := g.Generate("sgk", d2);
  }
}
