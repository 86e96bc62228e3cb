/**
 * The SGK petition template: the fixed Turkish wording of the letter to the
 * provincial social security directorate, as the literal pieces that stand
 * between its interpolated values, and what each interpolation prints.
 */
module SgkTemplate {
  import opened Form

  /** How one interpolation derives its text from the form. */
  datatype Slot =
    | Raw(field: Field)        // the field as typed
    | UpperCased(field: Field) // the field upper-cased
    | Formatted(field: Field)  // a date field passed through `formatDate`
    | EndDate                  // `calculateEndDate` of the start date

  /** The interpolations of the template, in order of appearance. */
  const Slots: seq<Slot> := [
    UpperCased(SgkCity), UpperCased(SgkDistrict), UpperCased(FullName), Raw(Tckn),
    Raw(Address), EndDate, Raw(WorkCity), Raw(WorkDistrict),
    Formatted(StartDate), Raw(Profession), Formatted(ApplicationDate), Raw(TaxOffice),
    Formatted(ApprovalDate), Raw(Tckn), Formatted(StartDate), Raw(SgkDistrict),
    Formatted(StartDate), EndDate, Raw(DebtAmount), EndDate,
    EndDate, Formatted(PetitionDate), Raw(DebtAmount), Raw(FullName)
  ]

  /**
   * The literal piece of the template before interpolation `i`, and for
   * `i == 24` the (empty) piece after the last one. The longer pieces are
   * written as concatenations of short literals only to keep the verifier
   * fast; joined, each is the source's wording between two interpolations.
   */
  function Piece(i: int): string
  {
    match i
    // before sgkCity.toUpperCase()
    case 0 => "SOSYAL GÜVENLİK KURUMU BAŞKANLIĞI\n"
    // before sgkDistrict.toUpperCase()
    case 1 => " "
    // before fullName.toUpperCase()
    case 2 => " SOSYAL GÜVENLİK MÜDÜRLÜĞÜNE\n\nAD SOYAD : "
    // before tckn
    case 3 => "\nTCKN : "
    // before address
    case 4 => "\nADRES : "
    // before endDateFormatted
    case 5 =>
      "\n" +
      "\n" +
      "KONU : Hukuka aykırı" +
      " olarak tahakkuk ett" +
      "irilen prim borcunun" +
      " geri alınması ve Ge" +
      "nç Girişimci Desteği" +
      "nin "
    // before workCity
    case 6 =>
      " tarihine kadar deva" +
      "mı hususunda taleple" +
      "ri içerir dilekçedir" +
      ".\n" +
      "\n"
    // before workDistrict
    case 7 => " "
    // before startDateFormatted
    case 8 => "'de "
    // before profession
    case 9 => " tarihinden beri "
    // before applicationDateFormatted
    case 10 =>
      " mesleğini icra etme" +
      "kteyim. İlgili şartl" +
      "arı sağladığım için "
    // before taxOffice
    case 11 =>
      " Genç Girişimcilerde" +
      " Kazanç İstisnası pr" +
      "ogramına başvurdum v" +
      "e "
    // before approvalDateFormatted
    case 12 => " tarafından "
    // before tckn
    case 13 =>
      " tarihinde tarafıma " +
      "tebliğ edilen:\n" +
      "\n" +
      "'İlgi dilekçenize is" +
      "tinaden dairemiz kay" +
      "ıtları tetkik edildi" +
      "ğinde; "
    // before startDateFormatted
    case 14 =>
      " T.C kimlik numarası" +
      " ile "
    // before sgkDistrict
    case 15 =>
      " tarihinden itibaren" +
      " dairemiz mükellefi " +
      "olduğunuz ve 193 Say" +
      "ılı Gelir Vergisi Ka" +
      "nunu'nun mükerrer 20" +
      ". maddesindeki \"Genç" +
      " Girişimcilerde Kaza" +
      "nç İstisnası \" şartl" +
      "arını taşıdığınız gö" +
      "rülmüştür.'\n" +
      "\n" +
      "şeklindeki kabul yaz" +
      "ısını "
    // before startDateFormatted
    case 16 =>
      " SGK müdürlüğüne ibr" +
      "az etmem akabinde il" +
      "gili genç girişimci " +
      "desteğinden yararlan" +
      "maya başladım.\n" +
      "\n" +
      "Genç girişimci deste" +
      "ğim devam etmekte ik" +
      "en 04/12/2025 tarihi" +
      "nde kabul edilen 756" +
      "6 sayılı kanunun 23." +
      "Maddesi ile 5510 say" +
      "ılı Kanunun 81 inci " +
      "maddesinin birinci f" +
      "ıkrasının (k) bendi " +
      "yürürlükten kaldırıl" +
      "mıştır.\n" +
      "\n" +
      "İlgili kanunun mülga" +
      " bendi aynen şöyledi" +
      "r:\n" +
      "\n" +
      "\"31/12/1960 tarihli " +
      "ve 193 sayılı Gelir " +
      "Vergisi Kanununun mü" +
      "kerrer 20 nci maddes" +
      "i kapsamında genç gi" +
      "rişimcilerde kazanç " +
      "istisnasından faydal" +
      "anan ve mükellefiyet" +
      " başlangıç tarihi it" +
      "ibarıyla 18 yaşını d" +
      "oldurmuş ve 29 yaşın" +
      "ı doldurmamış olanla" +
      "rdan, bu Kanunun 4 ü" +
      "ncü maddesinin birin" +
      "ci fıkrasının (b) be" +
      "ndinin (1) numaralı " +
      "alt bendi kapsamında" +
      " 1/6/2018 tarihinden" +
      " itibaren ilk defa s" +
      "igortalı sayılan ger" +
      "çek kişilerin primle" +
      "ri, 1 yıl süreyle 82" +
      " nci madde uyarınca " +
      "belirlenen prime esa" +
      "s kazanç alt sınır ü" +
      "zerinden Hazinece ka" +
      "rşılanır. Adi ortakl" +
      "ıklar ve şahıs şirke" +
      "t ortaklıklarında sa" +
      "dece bir ortak bu fı" +
      "kra hükmünden yararl" +
      "andırılır.\"\n" +
      "\n" +
      "Kanun hükmünden de a" +
      "nlaşıldığı üzere şar" +
      "tları sağlayan gerçe" +
      "k kişilerin sigorta " +
      "primleri 1 yıl sürey" +
      "le devletçe karşılan" +
      "maktadır. Sigorta pr" +
      "im desteği 1 takvim " +
      "yılı değil, 12 aylık" +
      " süreyle uygulanmakt" +
      "adır.\n" +
      "\n" +
      "İlgili kanun 01.01.2" +
      "026 tarihinde yürürl" +
      "üğe girecek ve bu ta" +
      "rihten sonra yapılac" +
      "ak olan başvuruları " +
      "kapsayacak şekilde G" +
      "enç Girişimci Desteğ" +
      "i kaldırılmıştır. An" +
      "cak normal şartlarda" +
      " mesleğe başladığım " +
      "tarih olan "
    // before endDateFormatted
    case 17 =>
      " tarihinden 1 yıl so" +
      "nrası olan "
    // before debtAmount
    case 18 =>
      " tarihine kadar deva" +
      "m etmesi gereken Gen" +
      "ç Girişimci Desteği " +
      "01.01.2026 tarihinde" +
      " sona erdirilmiş ve " +
      "tarafıma "
    // before endDateFormatted
    case 19 =>
      " TL tutarında prim b" +
      "orcu yansıtılmıştır." +
      "\n" +
      "\n" +
      "Bu durum konu itibar" +
      "iyle hukuka aykırılı" +
      "k teşkil etmektedir." +
      " Ayrıca Anayasamızın" +
      " 2.Maddesinde güvenc" +
      "e altına alınan huku" +
      "k devleti ilkesinin " +
      "en temel dayanakları" +
      "ndan birisi olan kaz" +
      "anılmış haklara sayg" +
      "ı ilkesini ihlal etm" +
      "iştir.\n" +
      "\n" +
      "Tüm bu nedenlerle il" +
      "gili hukuka aykırı p" +
      "rim borcu tahakkuku " +
      "işleminin baştan iti" +
      "baren geri alınması " +
      "ve desteğin sona ere" +
      "ceği tarih olan "
    // before endDateFormatted
    case 20 =>
      " tarihine kadar ilgi" +
      "li sigorta prim dest" +
      "eğinin devam ettiril" +
      "mesi gerekmektedir.\n" +
      "\n" +
      "TALEP VE SONUÇ:\n" +
      "1) Hukuka aykırı pri" +
      "m borcu tahakkukunun" +
      " baştan itibaren GER" +
      "İ ALINMASI,\n" +
      "2) Mülga edilen kanu" +
      "n bendinde belirtile" +
      "n 1 yıllık sürenin b" +
      "itimi olan "
    // before petitionDateFormatted
    case 21 =>
      " tarihine kadar sigo" +
      "rta primlerimin ÖDEN" +
      "MESİNE DEVAM EDİLMES" +
      "İ'ni talep ediyorum." +
      "\n" +
      "\n"
    // before debtAmount
    case 22 =>
      "\n" +
      "\n" +
      "Ekler:\n" +
      "EK1 - Genç Girişimci" +
      "lerde Kazanç İstisna" +
      "sı şartlarını taşıdı" +
      "ğıma dair Vergi dair" +
      "esi üst yazısı\n" +
      "EK2 - Haksız olarak " +
      "tahakkuk ettirilen "
    // before fullName
    case 23 =>
      " TL tutarındaki prim" +
      " borcunu gösterir gö" +
      "rsel\n" +
      "\n"
    case _ => ""  // after the last interpolation
  }

  /** The literal text around the interpolations: one piece before each, and one after the last. */
  function Segments(): seq<string> { seq(25, i => PieceAtOrBelow(24, i)) }

  /**
   * Piece `i`, looked up among pieces `k`, `k - 1`, ..., `0`. Going through
   * the pieces one at a time lets a proof about an unknown index look only at
   * the pieces it needs.
   */
  function PieceAtOrBelow(k: int, i: int): string
    decreases k
  {
    if k < 0 then "" else if i == k then Piece(k) else PieceAtOrBelow(k - 1, i)
  }

  /** Looking piece `i` up among pieces `k` down to `0` finds it whenever `i` is among them. */
  lemma {:induction false} PieceAtOrBelowFinds(k: int, i: int)
    requires 0 <= i <= k
    ensures PieceAtOrBelow(k, i) == Piece(i)
    decreases k
  {
    if i != k {
      PieceAtOrBelowFinds(k - 1, i);
    }
  }

  /** The end date is interpolated at exactly four places: the subject line and three in the body. */
  lemma EndDateSlots()
    ensures forall i :: 0 <= i < |Slots| ==> (Slots[i] == EndDate <==> i in {5, 17, 19, 20})
  {
  }

  /** The header: the addressee's province and district, then the applicant's name, ID number and address. */
  lemma HeaderSlots()
    ensures Slots[..5] == [UpperCased(SgkCity), UpperCased(SgkDistrict), UpperCased(FullName), Raw(Tckn), Raw(Address)]
  {
  }

  /** The fixed wording around the header's five interpolations. */
  lemma HeaderSegments()
    ensures Segments()[0] == "SOSYAL GÜVENLİK KURUMU BAŞKANLIĞI\n"
    ensures Segments()[1] == " "
    ensures Segments()[2] == " SOSYAL GÜVENLİK MÜDÜRLÜĞÜNE\n\nAD SOYAD : "
    ensures Segments()[3] == "\nTCKN : "
    ensures Segments()[4] == "\nADRES : "
  {
    PieceAtOrBelowFinds(24, 0);
    PieceAtOrBelowFinds(24, 1);
    PieceAtOrBelowFinds(24, 2);
    PieceAtOrBelowFinds(24, 3);
    PieceAtOrBelowFinds(24, 4);
  }

  /** There is one more piece of literal text than there are interpolations. */
  lemma TemplateShape()
    ensures |Segments()| == |Slots| + 1 == 25
    ensures Segments()[|Segments()| - 1] == ""
  {
  }
}
