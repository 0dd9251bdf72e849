/** The domain index of domain_index.rs: labels of 16-bit domains, and the lookups both ways. */
module Domains {
  import opened Basics
  import opened Text

  datatype Category = Regulatory | Sector | Reserve | Witness

  datatype DomainEntry = DomainEntry(raw: u32, name: string, category: Category)

  /** The country rows that share a first letter: consecutive high bytes from `hi`, low byte zero. */
  datatype Group = Group(first: char, hi: nat, seconds: string)

  const GROUPS: seq<Group> := [
    Group('A', 0x03, "DEFGLMORTUZ"),
    Group('B', 0x0E, "ABDEFGHIJNORSTWYZ"),
    Group('C', 0x1F, "ADFGHILMNORUVYZ"),
    Group('D', 0x2E, "EJKMOZ"),
    Group('E', 0x34, "CEGRST"),
    Group('F', 0x3A, "IJMR"),
    Group('G', 0x3E, "ABDEHMNQRTWY"),
    Group('H', 0x4A, "NRTU"),
    Group('I', 0x4E, "DELNQRST"),
    Group('J', 0x56, "MOP"),
    Group('K', 0x59, "EGHIMNPRWZ"),
    Group('L', 0x63, "ABCIKRSTUVY"),
    Group('M', 0x6E, "ACDEGHKLMNRTUVWXYZ"),
    Group('N', 0x80, "AEGILOPRZ"),
    Group('O', 0x89, "M"),
    Group('P', 0x8A, "AEGHKLSTWY"),
    Group('Q', 0x94, "A"),
    Group('R', 0x95, "OSUW"),
    Group('S', 0x99, "ABCDEGIKLMNORSTVYZ"),
    Group('T', 0xAB, "DGHJLMNORTVZ"),
    Group('U', 0xB7, "AGSYZ"),
    Group('V', 0xBC, "ACENU"),
    Group('W', 0xC1, "S"),
    Group('Y', 0xC2, "E"),
    Group('Z', 0xC3, "AMW")
  ]

  /** The sector rows, then the witness rows. */
  const OTHERS: seq<DomainEntry> := [
    DomainEntry(0xD003, "CDS", Sector), DomainEntry(0xD006, "CST", Sector), DomainEntry(0xD009, "ENG", Sector),
    DomainEntry(0xD00C, "FIN", Sector), DomainEntry(0xD00F, "HLC", Sector), DomainEntry(0xD012, "IND", Sector),
    DomainEntry(0xD015, "ITC", Sector), DomainEntry(0xD018, "MAT", Sector), DomainEntry(0xD01B, "REA", Sector),
    DomainEntry(0xD01E, "TLS", Sector), DomainEntry(0xD021, "UTL", Sector),
    DomainEntry(0xF003, "Witness Fast", Witness), DomainEntry(0xF006, "Witness Mobile", Witness),
    DomainEntry(0xF009, "Witness Secure", Witness)
  ]

  const LEGACY_LABELS: seq<(string, u32)> := [
    ("argentina", 0x0A00), ("australia", 0x0C00), ("austria", 0x0B00),
    ("belgium", 0x1100), ("brazil", 0x1900), ("canada", 0x1F00),
    ("chile", 0x2500), ("china", 0x2700), ("colombia", 0x2800),
    ("cyprus", 0x2C00), ("czech republic", 0x2D00), ("denmark", 0x3000),
    ("egypt", 0x3600), ("estonia", 0x3500), ("finland", 0x3A00),
    ("france", 0x3D00), ("germany", 0x2E00), ("india", 0x5100),
    ("indonesia", 0x4E00), ("ireland", 0x4F00), ("israel", 0x5000),
    ("italy", 0x5500), ("japan", 0x5800), ("mexico", 0x7D00),
    ("netherlands", 0x8400), ("new zealand", 0x8800), ("nigeria", 0x8200),
    ("norway", 0x8500), ("poland", 0x8F00), ("portugal", 0x9100),
    ("saudi arabia", 0x9900), ("singapore", 0x9E00), ("south africa", 0xC300),
    ("south korea", 0x6000), ("spain", 0x3800), ("sweden", 0x9D00),
    ("switzerland", 0x2300), ("turkey", 0xB300), ("ukraine", 0xB700),
    ("united arab emirates", 0x0400), ("united kingdom", 0x3F00), ("united states", 0xB900),
    ("vietnam", 0xBF00)
  ]

  const FIRST_HI: nat := 0x03
  const LAST_HI: nat := 0xC5

  /** The rows of one group, from its `i`-th on. */
  function GroupRows(g: Group, i: nat): seq<DomainEntry>
    requires i <= |g.seconds| && g.hi + |g.seconds| <= 0x100
    decreases |g.seconds| - i
  {
    if i == |g.seconds| then []
    else [DomainEntry((g.hi + i) * 0x100, [g.first, g.seconds[i]], Regulatory)] + GroupRows(g, i + 1)
  }

  predicate GroupsFit(gs: seq<Group>) { forall g :: 0 <= g < |gs| ==> gs[g].hi + |gs[g].seconds| <= 0x100 }

  function Rows(gs: seq<Group>): seq<DomainEntry>
    requires GroupsFit(gs)
    decreases |gs|
  {
    if gs == [] then [] else GroupRows(gs[0], 0) + Rows(gs[1..])
  }

  lemma LettersAToBAscend()
    ensures Ascending("DEFGLMORTUZ") && Ascending("ABDEFGHIJNORSTWYZ")
  {
  }

  lemma LettersCToFAscend()
    ensures Ascending("ADFGHILMNORUVYZ") && Ascending("EJKMOZ") && Ascending("CEGRST") && Ascending("IJMR")
  {
  }

  lemma LettersGToJAscend()
    ensures Ascending("ABDEHMNQRTWY") && Ascending("NRTU") && Ascending("DELNQRST") && Ascending("MOP")
  {
  }

  lemma LettersKToLAscend()
    ensures Ascending("EGHIMNPRWZ") && Ascending("ABCIKRSTUVY")
  {
  }

  lemma LettersMToOAscend()
    ensures Ascending("ACDEGHKLMNRTUVWXYZ") && Ascending("AEGILOPRZ") && Ascending("M")
  {
  }

  lemma LettersPToSAscend()
    ensures Ascending("AEGHKLSTWY") && Ascending("A") && Ascending("OSUW") && Ascending("ABCDEGIKLMNORSTVYZ")
  {
  }

  lemma LettersTToYAscend()
    ensures Ascending("DGHJLMNORTVZ") && Ascending("AGSYZ") && Ascending("ACENU") && Ascending("S") && Ascending("E")
  {
  }

  lemma LettersZAscend()
    ensures Ascending("AMW")
  {
  }

  lemma SecondsAscend(g: nat)
    requires g < |GROUPS|
    ensures Ascending(GROUPS[g].seconds)
  {
    LettersAToBAscend();
    LettersCToFAscend();
    LettersGToJAscend();
    LettersKToLAscend();
    LettersMToOAscend();
    LettersPToSAscend();
    LettersTToYAscend();
    LettersZAscend();
  }

  lemma GroupsRunOn()
    ensures |GROUPS| == 25 && GROUPS[0].hi == FIRST_HI && GROUPS[24].hi + |GROUPS[24].seconds| == LAST_HI + 1
    ensures forall g :: 0 <= g < 24 ==>
      GROUPS[g].first < GROUPS[g + 1].first && GROUPS[g + 1].hi == GROUPS[g].hi + |GROUPS[g].seconds|
  {
  }

  lemma GroupsFitBytes()
    ensures GroupsFit(GROUPS) && forall g :: 0 <= g < |GROUPS| ==> 'A' <= GROUPS[g].first <= 'Z'
  {
  }

  lemma GroupsInOrder()
    ensures GroupsFit(GROUPS) && Sorted(GROUPS)
  {
    GroupsRunOn();
    GroupsFitBytes();
    forall g | 0 <= g < |GROUPS| ensures Ascending(GROUPS[g].seconds) {
      SecondsAscend(g);
    }
  }

  /** Letters ascend within a group and from group to group, and the high bytes run on. */
  predicate Sorted(gs: seq<Group>) {
    && (forall g :: 0 <= g < |gs| ==> 'A' <= gs[g].first <= 'Z' && Ascending(gs[g].seconds))
    && (forall g :: 0 <= g < |gs| - 1 ==>
      gs[g].first < gs[g + 1].first && gs[g + 1].hi == gs[g].hi + |gs[g].seconds|)
  }

  predicate Ascending(s: string) {
    && (forall i :: 0 <= i < |s| ==> 'A' <= s[i] <= 'Z')
    && (forall i :: 0 <= i < |s| - 1 ==> s[i] < s[i + 1])
  }

  // ----- the regulatory rows -----

  /** A number that orders two-letter names as the table does. */
  function Code(name: string): int
    requires |name| >= 2
  {
    0x100 * (name[0] as int) + name[1] as int
  }

  predicate TwoLetters(name: string) { |name| == 2 && 'A' <= name[0] <= 'Z' && 'A' <= name[1] <= 'Z' }

  lemma {:induction false} AscendingLetters(s: string, i: nat, j: nat)
    requires Ascending(s) && i < j < |s|
    ensures s[i] < s[j]
    decreases j
  {
    if i + 1 < j {
      AscendingLetters(s, i, j - 1);
    }
  }

  lemma {:induction false} GroupRowAt(g: Group, i: nat, k: nat)
    requires i <= |g.seconds| && g.hi + |g.seconds| <= 0x100 && k < |g.seconds| - i
    ensures |GroupRows(g, i)| == |g.seconds| - i
    ensures GroupRows(g, i)[k] == DomainEntry((g.hi + i + k) * 0x100, [g.first, g.seconds[i + k]], Regulatory)
    decreases |g.seconds| - i
  {
    GroupRowsLength(g, i);
    if k > 0 {
      GroupRowAt(g, i + 1, k - 1);
    }
  }

  lemma {:induction false} GroupRowsLength(g: Group, i: nat)
    requires i <= |g.seconds| && g.hi + |g.seconds| <= 0x100
    ensures |GroupRows(g, i)| == |g.seconds| - i
    decreases |g.seconds| - i
  {
    if i < |g.seconds| {
      GroupRowsLength(g, i + 1);
    }
  }

  predicate RowOk(e: DomainEntry, hi: nat) { e.raw == hi * 0x100 && e.category == Regulatory && TwoLetters(e.name) }

  lemma GroupRowsOk(g: Group)
    requires g.hi + |g.seconds| <= 0x100 && 'A' <= g.first <= 'Z' && Ascending(g.seconds)
    ensures |GroupRows(g, 0)| == |g.seconds| && TableOk(GroupRows(g, 0), g.hi, g.first)
    ensures forall e :: e in GroupRows(g, 0) ==> |e.name| > 0 && e.name[0] == g.first
  {
    var rows := GroupRows(g, 0);
    GroupRowsLength(g, 0);
    forall k | 0 <= k < |rows|
      ensures rows[k] == DomainEntry((g.hi + k) * 0x100, [g.first, g.seconds[k]], Regulatory)
    {
      GroupRowAt(g, 0, k);
    }
    forall j, k | 0 <= j < k < |rows| ensures Code(rows[j].name) < Code(rows[k].name) {
      AscendingLetters(g.seconds, j, k);
    }
  }

  ghost predicate TableOk(rows: seq<DomainEntry>, hi: nat, first: char) {
    && (forall k :: 0 <= k < |rows| ==> RowOk(rows[k], hi + k) && rows[k].name[0] >= first)
    && (forall j, k :: 0 <= j < k < |rows| ==> Code(rows[j].name) < Code(rows[k].name))
  }

  lemma JoinTables(xs: seq<DomainEntry>, ys: seq<DomainEntry>, hi: nat, first: char, next: char)
    requires TableOk(xs, hi, first) && forall e :: e in xs ==> |e.name| > 0 && e.name[0] == first
    requires TableOk(ys, hi + |xs|, next) && first < next
    ensures TableOk(xs + ys, hi, first)
  {
  }

  lemma {:induction false} RowsOk(gs: seq<Group>)
    requires gs != [] && GroupsFit(gs) && Sorted(gs)
    ensures |Rows(gs)| == gs[|gs| - 1].hi + |gs[|gs| - 1].seconds| - gs[0].hi
    ensures TableOk(Rows(gs), gs[0].hi, gs[0].first)
    decreases |gs|
  {
    GroupRowsOk(gs[0]);
    if |gs| > 1 {
      var tail := gs[1..];
      assert forall g :: 0 <= g < |tail| ==> tail[g] == gs[g + 1];
      RowsOk(tail);
      JoinTables(GroupRows(gs[0], 0), Rows(tail), gs[0].hi, gs[0].first, gs[1].first);
    } else {
      assert Rows(gs[1..]) == [];
      assert Rows(gs) == GroupRows(gs[0], 0);
    }
  }

  // ----- lookups -----

  function LowerChar(c: char): char { if 'A' <= c <= 'Z' then c + 32 as char else c }

  function Lower(s: string): (t: string)
    ensures |t| == |s|
    ensures forall i :: 0 <= i < |s| ==> t[i] == LowerChar(s[i])
  {
    if s == [] then [] else [LowerChar(s[0])] + Lower(s[1..])
  }

  predicate SameLabel(a: string, b: string) { Lower(a) == Lower(b) }

  function FindName(es: seq<DomainEntry>, q: string): Option<DomainEntry> {
    if es == [] then None else if SameLabel(es[0].name, q) then Some(es[0]) else FindName(es[1..], q)
  }

  function FindRaw(es: seq<DomainEntry>, raw: u32): Option<DomainEntry> {
    if es == [] then None else if es[0].raw == raw then Some(es[0]) else FindRaw(es[1..], raw)
  }

  function FindHi(es: seq<DomainEntry>, hi: byte): Option<DomainEntry> {
    if es == [] then None else if es[0].raw / 0x100 % 0x100 == hi then Some(es[0]) else FindHi(es[1..], hi)
  }

  function FindLegacy(rows: seq<(string, u32)>, q: string): Option<u32> {
    if rows == [] then None else if rows[0].0 == q then Some(rows[0].1) else FindLegacy(rows[1..], q)
  }

  function CategoryForRaw(raw: u32): Option<Category> {
    if 0x0300 <= raw <= 0xC5FF then Some(Regulatory)
    else if 0xD000 <= raw <= 0xDFFF then Some(Sector)
    else if 0xE000 <= raw <= 0xEFFF then Some(Reserve)
    else if 0xF000 <= raw <= 0xFFFF then Some(Witness)
    else None
  }

  /** The tables the lookups run over: country rows, then sector and witness rows; and the old country
      names kept as aliases. */
  datatype DomainIndex = DomainIndex(regs: seq<DomainEntry>, others: seq<DomainEntry>, legacy: seq<(string, u32)>)
  {
    function LookupByRaw(raw: u32): Option<DomainEntry> { FindRaw(regs + others, raw) }

    function LookupForDisplay(raw: u32): Option<DomainEntry> {
      match LookupByRaw(raw)
      case Some(e) => Some(e)
      case None => if CategoryForRaw(raw) == Some(Regulatory) then FindHi(regs, raw / 0x100 % 0x100) else None
    }

    function LookupByLabel(text: string): Option<DomainEntry> {
      var q := Trim(text);
      match FindName(regs + others, q)
      case Some(e) => Some(e)
      case None =>
        match FindLegacy(legacy, Lower(Trim(q)))
        case Some(raw) => LookupByRaw(raw)
        case None => None
    }
  }

  /** The index as shipped. */
  function ShippedIndex(): DomainIndex
  {
    GroupsInOrder();
    DomainIndex(Rows(GROUPS), OTHERS, LEGACY_LABELS)
  }

  // ----- what the lookups find -----

  lemma {:induction false} FirstMatch(es: seq<DomainEntry>, q: string, k: nat)
    requires k < |es| && SameLabel(es[k].name, q)
    requires forall j :: 0 <= j < k ==> !SameLabel(es[j].name, q)
    ensures FindName(es, q) == Some(es[k])
    decreases k
  {
    if k > 0 {
      FirstMatch(es[1..], q, k - 1);
    }
  }

  lemma {:induction false} NoMatch(es: seq<DomainEntry>, q: string)
    requires forall j :: 0 <= j < |es| ==> !SameLabel(es[j].name, q)
    ensures FindName(es, q) == None
  {
    if es != [] {
      NoMatch(es[1..], q);
    }
  }

  lemma OtherRows(k: nat)
    requires k < |OTHERS|
    ensures var e := OTHERS[k];
      |e.name| >= 3 && 0xD000 <= e.raw <= 0xFFFF && !e.category.Regulatory? && e.name[0] != '$'
  {
  }

  lemma OtherNamesTrimmed(k: nat)
    requires k < |OTHERS|
    ensures Trimmed(OTHERS[k].name)
  {
  }

  lemma OtherNamesPlain(k: nat, i: nat)
    requires k < |OTHERS| && i < |OTHERS[k].name|
    ensures OTHERS[k].name[i] != '/' && OTHERS[k].name[i] != '-'
  {
  }

  /** Enough of a name, letter case aside, to tell the sector and witness names apart. */
  function NameKey(name: string): int
    requires |name| >= 3
  {
    if |name| < 9 then 0x100 * (LowerChar(name[0]) as int) + LowerChar(name[1]) as int
    else 0x1_0000 * |name| + LowerChar(name[8]) as int
  }

  lemma OtherKeysAscend(k: nat)
    requires k + 1 < |OTHERS|
    ensures |OTHERS[k].name| >= 3 && |OTHERS[k + 1].name| >= 3
    ensures NameKey(OTHERS[k].name) < NameKey(OTHERS[k + 1].name)
  {
  }

  lemma {:induction false} OtherKeysGrow(j: nat, k: nat)
    requires j < k < |OTHERS|
    ensures |OTHERS[j].name| >= 3 && |OTHERS[k].name| >= 3
    ensures NameKey(OTHERS[j].name) < NameKey(OTHERS[k].name)
    decreases k
  {
    OtherKeysAscend(k - 1);
    if j + 1 < k {
      OtherKeysGrow(j, k - 1);
    }
  }

  lemma SameLabelSameKey(a: string, b: string)
    requires SameLabel(a, b) && |a| >= 3 && |b| >= 3
    ensures NameKey(a) == NameKey(b)
  {
  }

  lemma {:induction false} FindRawAt(es: seq<DomainEntry>, raw: u32, k: nat)
    requires k < |es| && es[k].raw == raw
    requires forall j :: 0 <= j < k ==> es[j].raw != raw
    ensures FindRaw(es, raw) == Some(es[k])
    decreases k
  {
    if k > 0 {
      FindRawAt(es[1..], raw, k - 1);
    }
  }

  lemma {:induction false} FindRawNone(es: seq<DomainEntry>, raw: u32)
    requires forall j :: 0 <= j < |es| ==> es[j].raw != raw
    ensures FindRaw(es, raw) == None
  {
    if es != [] {
      FindRawNone(es[1..], raw);
    }
  }

  lemma {:induction false} FindRawFinds(es: seq<DomainEntry>, raw: u32) returns (k: nat)
    ensures match FindRaw(es, raw)
      case Some(e) => k < |es| && es[k] == e && e.raw == raw
      case None => forall j :: 0 <= j < |es| ==> es[j].raw != raw
  {
    k := 0;
    if es != [] && es[0].raw != raw {
      var i := FindRawFinds(es[1..], raw);
      k := i + 1;
    }
  }

  lemma {:induction false} FindHiAt(es: seq<DomainEntry>, hi: byte, k: nat)
    requires k < |es| && es[k].raw / 0x100 % 0x100 == hi
    requires forall j :: 0 <= j < k ==> es[j].raw / 0x100 % 0x100 != hi
    ensures FindHi(es, hi) == Some(es[k])
    decreases k
  {
    if k > 0 {
      FindHiAt(es[1..], hi, k - 1);
    }
  }

  // ----- what the codecs need of the tables -----

  predicate OtherOk(e: DomainEntry) {
    && |e.name| >= 3 && Trimmed(e.name) && '/' !in e.name && '-' !in e.name
    && 0xD000 <= e.raw <= 0xFFFF && !e.category.Regulatory? && e.name[0] != '$'
  }

  /** One country row for each high byte from 0x03 to 0xC5, and names and codes that cannot be confused. */
  ghost predicate IndexOk(ix: DomainIndex) {
    && |ix.regs| == LAST_HI + 1 - FIRST_HI && TableOk(ix.regs, FIRST_HI, 'A')
    && (forall k :: 0 <= k < |ix.others| ==> OtherOk(ix.others[k]))
    && (forall j, k :: 0 <= j < k < |ix.others| ==> !SameLabel(ix.others[j].name, ix.others[k].name))
    && (forall i :: 0 <= i < |ix.legacy| ==> ix.legacy[i].0 != [] && 'a' <= ix.legacy[i].0[0] <= 'z')
  }

  lemma LegacyPlain(i: nat)
    requires i < |LEGACY_LABELS|
    ensures LEGACY_LABELS[i].0 != [] && 'a' <= LEGACY_LABELS[i].0[0] <= 'z'
  {
  }

  lemma OthersDiffer(j: nat, k: nat)
    requires j < k < |OTHERS|
    ensures !SameLabel(OTHERS[j].name, OTHERS[k].name)
  {
    OtherKeysGrow(j, k);
    if SameLabel(OTHERS[j].name, OTHERS[k].name) {
      SameLabelSameKey(OTHERS[j].name, OTHERS[k].name);
    }
  }

  lemma ShippedRows()
    ensures GroupsFit(GROUPS) && |Rows(GROUPS)| == LAST_HI + 1 - FIRST_HI && TableOk(Rows(GROUPS), FIRST_HI, 'A')
  {
    GroupsInOrder();
    GroupsRunOn();
    RowsOk(GROUPS);
  }

  lemma QualifiedIndex(rows: seq<DomainEntry>)
    requires |rows| == LAST_HI + 1 - FIRST_HI && TableOk(rows, FIRST_HI, 'A')
    ensures IndexOk(DomainIndex(rows, OTHERS, LEGACY_LABELS))
  {
    forall k | 0 <= k < |OTHERS| ensures OtherOk(OTHERS[k]) {
      OtherRows(k);
      OtherNamesTrimmed(k);
      forall i | 0 <= i < |OTHERS[k].name| ensures OTHERS[k].name[i] != '/' && OTHERS[k].name[i] != '-' {
        OtherNamesPlain(k, i);
      }
    }
    forall j, k | 0 <= j < k < |OTHERS| ensures !SameLabel(OTHERS[j].name, OTHERS[k].name) {
      OthersDiffer(j, k);
    }
    forall i | 0 <= i < |LEGACY_LABELS| ensures LEGACY_LABELS[i].0 != [] && 'a' <= LEGACY_LABELS[i].0[0] <= 'z' {
      LegacyPlain(i);
    }
  }

  /** The shipped tables qualify. */
  lemma ShippedIndexOk()
    ensures IndexOk(ShippedIndex())
  {
    ShippedRows();
    QualifiedIndex(Rows(GROUPS));
  }

  // ----- looking up what was displayed -----

  lemma TwoLetterLabels(a: string, b: string)
    requires TwoLetters(a) && TwoLetters(b) && Code(a) != Code(b)
    ensures !SameLabel(a, b)
  {
  }

  lemma FirstCharsDiffer(a: string, b: string)
    requires a != [] && b != [] && LowerChar(a[0]) != LowerChar(b[0])
    ensures !SameLabel(a, b)
  {
  }

  lemma DifferentLengths(a: string, b: string)
    requires |a| != |b|
    ensures !SameLabel(a, b)
  {
  }

  /** Every domain in the country range is displayed with the row of its high byte. */
  lemma RegulatoryDisplay(ix: DomainIndex, raw: u32)
    requires IndexOk(ix) && 0x0300 <= raw <= 0xC5FF
    ensures ix.LookupForDisplay(raw) == Some(ix.regs[raw / 0x100 - FIRST_HI])
  {
    var k := raw / 0x100 - FIRST_HI;
    assert RowOk(ix.regs[k], FIRST_HI + k);
    var all := ix.regs + ix.others;
    forall j | 0 <= j < |ix.regs| ensures ix.regs[j].raw == (FIRST_HI + j) * 0x100 {
      assert RowOk(ix.regs[j], FIRST_HI + j);
    }
    if raw % 0x100 == 0 {
      FindRawAt(all, raw, k);
    } else {
      forall j | 0 <= j < |all| ensures all[j].raw != raw {
        assert j >= |ix.regs| ==> OtherOk(ix.others[j - |ix.regs|]);
      }
      FindRawNone(all, raw);
      FindHiAt(ix.regs, raw / 0x100 % 0x100, k);
    }
  }

  /** A country name is found as the row that carries it. */
  lemma RegulatoryLabel(ix: DomainIndex, k: nat)
    requires IndexOk(ix) && k < |ix.regs|
    ensures ix.LookupByLabel(ix.regs[k].name) == Some(ix.regs[k])
  {
    var q := ix.regs[k].name;
    assert RowOk(ix.regs[k], FIRST_HI + k);
    TrimFixed(q);
    forall j | 0 <= j < k ensures !SameLabel(ix.regs[j].name, q) {
      assert RowOk(ix.regs[j], FIRST_HI + j);
      TwoLetterLabels(ix.regs[j].name, q);
    }
    FirstMatch(ix.regs + ix.others, q, k);
  }

  /** Outside the country range a display label is an exact sector or witness row, found again by name. */
  lemma OtherDisplay(ix: DomainIndex, raw: u32)
    requires IndexOk(ix) && !(0x0300 <= raw <= 0xC5FF) && ix.LookupForDisplay(raw).Some?
    ensures var e := ix.LookupForDisplay(raw).value;
      && e.raw == raw && OtherOk(e) && ix.LookupByLabel(e.name) == Some(e)
  {
    var all := ix.regs + ix.others;
    var i := FindRawFinds(all, raw);
    forall j | 0 <= j < |ix.regs| ensures ix.regs[j].raw == (FIRST_HI + j) * 0x100 {
      assert RowOk(ix.regs[j], FIRST_HI + j);
    }
    var k := i - |ix.regs|;
    OtherLabel(ix, k);
  }

  lemma OtherLabel(ix: DomainIndex, k: nat)
    requires IndexOk(ix) && k < |ix.others|
    ensures ix.LookupByLabel(ix.others[k].name) == Some(ix.others[k])
  {
    var all, q := ix.regs + ix.others, ix.others[k].name;
    assert OtherOk(ix.others[k]);
    TrimFixed(q);
    forall j | 0 <= j < |ix.regs| + k ensures !SameLabel(all[j].name, q) {
      if j < |ix.regs| {
        assert RowOk(ix.regs[j], FIRST_HI + j);
        DifferentLengths(all[j].name, q);
      } else {
        assert all[j] == ix.others[j - |ix.regs|];
      }
    }
    FirstMatch(all, q, |ix.regs| + k);
  }

  lemma {:induction false} NoLegacy(rows: seq<(string, u32)>, q: string)
    requires q != [] && !('a' <= q[0] <= 'z')
    requires forall i :: 0 <= i < |rows| ==> rows[i].0 != [] && 'a' <= rows[i].0[0] <= 'z'
    ensures FindLegacy(rows, q) == None
  {
    if rows != [] {
      NoLegacy(rows[1..], q);
    }
  }

  /** Text that starts with the hexadecimal marker is no label. */
  lemma DollarIsNoLabel(ix: DomainIndex, q: string)
    requires IndexOk(ix) && q != [] && q[0] == '$' && Trimmed(q)
    ensures ix.LookupByLabel(q) == None
  {
    var all := ix.regs + ix.others;
    TrimFixed(q);
    forall j | 0 <= j < |all| ensures !SameLabel(all[j].name, q) {
      assert j < |ix.regs| ==> RowOk(ix.regs[j], FIRST_HI + j);
      assert j >= |ix.regs| ==> OtherOk(ix.others[j - |ix.regs|]);
      assert all[j].name != [] && all[j].name[0] != '$';
      FirstCharsDiffer(all[j].name, q);
    }
    NoMatch(all, q);
    assert Lower(q)[0] == '$';
    NoLegacy(ix.legacy, Lower(q));
  }
}
